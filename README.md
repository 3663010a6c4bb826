# KuantumDashboard in Dafny

A model of the data logic behind KuantumDashboard, a React dashboard for a
bakery: daily sales reports, monthly sales reports and raw-material cost
reports. The project proves properties of that model.

The model covers:

- **The unified report store.** Three stored report lists are normalised
  into one record shape. The Spanish long dates ("5 de marzo de 2024") and
  ISO dates are parsed, and the ids are cleaned. The lists are then
  combined: invalid reports are dropped, the first copy of each id is
  kept, and the result is ordered newest first. The store also answers
  the queries the pages make: by year, by month key, the available years
  and the chart series.
- **Favourites.** The `"<id>-<type>"` key set, toggled one report at a
  time, and the report list annotated with `isFavorite`.
- **Summaries.** The report statistics cards and the flat list of all
  reports.
- **The widgets that read the store.** The home page's displayed report,
  the latest and featured favourites, the search boxes, the navigation
  bar's search index and suggestions, the reports page's type tabs and
  selection, the top-products widget, and the monthly and raw-material
  charts.
- **The settings tables.** The inventory view (filter, sort, pages,
  statistics), the customer manager (form validation, add, edit and
  delete) and the notification inbox (mark read, close, clear, page list).
- **The floating notepad.** Dragging and resizing with minimum sizes.
- **The top-products bar chart.** Axis labels, bar colours and the
  single-product gauges.

Code that changes state step by step is written as Dafny classes and
methods, and each method is proved against a function that specifies it.
This covers the React state of a component, the refs of the notepad and
the `for` loops that de-duplicate or partition lists. The lists, maps and
sets the code builds are written as functions over sequences.

JavaScript values that matter to the logic are modelled explicitly:

- `undefined`, `null` and `NaN` in numeric fields
- `||` on empty strings
- `parseInt` with radix 10
- `String.prototype.slice` with negative indices
- `new Date(y, m, d)` overflow
- the stability of `Array.prototype.sort`

All modules live under `model/`. Shared modules (`Seqs`, `JsText`,
`StableSort`, `FirstWins`, `Distinct`, `KeyedSums`, `Paging`, `Calendar`,
`SpanishDates`, `Trends`) hold what several components use.

## Model

| member | source | states |
|---|---|---|
| AllReports.NormalizeReport | src/data/allReports.js:6-14 | keeps id and summary and sets the given type label. A missing name becomes "Sin nombre". The date is `details.date`, else `date`, else "Sin fecha", so name and date are never empty |
| AllReports.FlattenLayout | src/data/allReports.js:17-21 | the flat list holds every stored report once: the daily ones first, then monthly, then material, each under its kind label |
| Calendar.NormalizeDay | src/components/HomePage/TopSalesProduct.jsx:25 | day overflow carries into the month the way `Date` resolves it; the result is always a real calendar day |
| Calendar.Construct | src/components/HomePage/TopSalesProduct.jsx:25 | `new Date(year, monthIndex, day)` always yields a real calendar day |
| Calendar.ConstructValid | src/components/HomePage/TopSalesProduct.jsx:25 | a date already in range (and a year outside 0-99) is left as it is |
| Calendar.ConstructOverflowExample | src/components/HomePage/TopSalesProduct.jsx:25 | the 31st of February 2023 is the 3rd of March |
| Calendar.DayKeyOrder | src/components/ReportsPage/FeaturedReportsButton.jsx:31-32 | comparing day keys of real dates is comparing year, then month, then day, as comparing `getTime()` is; equal keys mean equal dates |
| Calendar.IsoRoundTrip | src/hooks/useUnifiedReports.jsx:35-40 | writing a four-digit-year date as "YYYY-MM-DD" and reading it with the ISO pattern gives back year, month and day |
| Calendar.IsoDateKeyOf | src/hooks/useUnifiedReports.jsx:233-234 | `new Date` of the ISO string of a real date orders it by its day key |
| JsText.NatToStringDigits | src/hooks/useUnifiedReports.jsx:53 | `String(n)` is a digit string whose value is n, with 1 to 4 digits for n below 10000 |
| JsText.Pad2Digits | src/hooks/useUnifiedReports.jsx:53 | `String(n).padStart(2, '0')` for n below 100 is two digits that read back as n |
| JsText.ParseDigits | src/hooks/useUnifiedReports.jsx:37-39 | `parseInt` of a digit string is its decimal value |
| JsText.ParseLeadingDigit | src/hooks/useUnifiedReports.jsx:106-109 | `parseInt` of text that starts with a digit is a number, not NaN |
| JsText.CaseFacts | src/components/ReportsPage/SearchReportsBox.jsx:17 | for the Latin letters up to U+017F, lowering and raising case are inverse on the letters that have a case, leave every other character alone, and lowering twice is lowering once |
| JsText.StrLtTotal | src/components/ReportsPage/RMVToggleGraphics.jsx:131 | two different strings are ordered one way or the other by the default string order |
| JsText.StrLtTransitive | src/components/ReportsPage/RMVToggleGraphics.jsx:131 | the string order is transitive |
| Seqs.FilterMembership | src/hooks/useUnifiedReports.jsx:212 | an element is kept by `filter` exactly when it is in the list and passes the test |
| Seqs.FilterSubseq | src/hooks/useUnifiedReports.jsx:212 | `filter` keeps the list's order |
| Seqs.FilterMultiset | src/hooks/useUnifiedReports.jsx:212 | `filter` keeps each passing element as often as the list holds it and drops every other |
| Seqs.FilterConcat | src/hooks/useUnifiedReports.jsx:212 | filtering a concatenation is concatenating the filtered parts |
| Seqs.CountSplit | src/hooks/useReportStats.js:32-33 | the elements passing a test and those failing it add up to the whole list |
| Seqs.SumConcat | src/hooks/useReportStats.js:26-28 | `reduce` of a sum over a concatenation is the sum of the parts |
| Seqs.IndexOf | src/hooks/useUnifiedReports.jsx:50 | `indexOf` gives the first position holding the value, and -1 exactly when it is absent |
| Seqs.Find | src/pages/HomePage.jsx:32 | `find` gives the first element passing the test, and nothing exactly when none passes |
| Seqs.Take | src/components/HomePage/TopSalesProduct.jsx:145 | `slice(0, n)` is the first n elements, or the whole list when shorter |
| StableSort.SortPermutes | src/hooks/useUnifiedReports.jsx:232-236 | sorting rearranges the elements: same length, same multiset |
| StableSort.SortSorted | src/hooks/useUnifiedReports.jsx:232-236 | with a comparator that is total and transitive on the input, the result is in comparator order |
| StableSort.SortStable | src/hooks/useUnifiedReports.jsx:232-236 | the sort is stable: elements the comparator ties keep their input order |
| StableSort.SortByKeyDesc | src/components/HomePage/TopSalesProduct.jsx:144 | `(a, b) => key(b) - key(a)` sorts into a permutation with non-increasing keys, stable on equal keys |
| StableSort.SortByKeyAsc | src/components/HomePage/TopSalesProduct.jsx:76 | `(a, b) => key(a) - key(b)` sorts into a permutation with non-decreasing keys, stable on equal keys |
| StableSort.SortByOptKeyDesc | src/hooks/useUnifiedReports.jsx:232-236 | when no key is NaN, a descending sort by a possibly-NaN key is a stable permutation with non-increasing keys |
| StableSort.SortByOptKeyAsc | src/hooks/useUnifiedReports.jsx:264 | when no key is NaN, an ascending sort by a possibly-NaN key is a stable permutation with non-decreasing keys |
| StableSort.SubseqSorted | src/components/HomePage/LatestReportsListBox.jsx:22-28 | deleting elements from a sorted list leaves it sorted |
| FirstWins.DedupLoop | src/hooks/useUnifiedReports.jsx:216-223 | the loop that keeps an element when it is eligible and its key is unseen computes the first-wins selection |
| FirstWins.DedupSubseq | src/hooks/useUnifiedReports.jsx:216-223 | the kept elements are in input order |
| FirstWins.DedupKeys | src/hooks/useUnifiedReports.jsx:216-223 | every key of an eligible element is kept, and only eligible elements are |
| FirstWins.DedupDistinct | src/hooks/useUnifiedReports.jsx:216-223 | no key is kept twice |
| FirstWins.DedupFirst | src/hooks/useUnifiedReports.jsx:216-223 | each kept element is the first eligible element of the input with its key |
| FirstWins.FirstWithNone | src/hooks/useUnifiedReports.jsx:216-223 | no first eligible element with a key exists exactly when no eligible element has that key |
| Distinct.UniqFacts | src/hooks/useUnifiedReports.jsx:253-257 | `[...new Set(s)]` holds exactly the values of s, each once |
| Distinct.UniqStep | src/hooks/useUnifiedReports.jsx:255 | `add` on a `Set` appends a new value and ignores a present one |
| Distinct.DescendingDistinctSpec | src/hooks/useUnifiedReports.jsx:257 | the distinct values sorted with `b - a` are exactly the values of the list, strictly decreasing |
| Distinct.AscendingDistinctSpec | src/components/HomePage/TopSalesProduct.jsx:76 | the distinct values sorted with `a - b` are exactly the values of the list, strictly increasing |
| Distinct.SortedDistinctStringsSpec | src/components/ReportsPage/RMVToggleGraphics.jsx:131 | the distinct strings sorted by the default `sort()` are exactly the strings of the list, strictly increasing |
| Distinct.KeysAfterPermute | src/components/ReportsPage/FeaturedReportsButton.jsx:18 | sorting does not change the set of keys present |
| Distinct.DistinctKeysAfterPermute | src/components/ReportsPage/FeaturedReportsButton.jsx:18 | sorting keeps keys distinct |
| Distinct.TopOfSorted | src/components/HomePage/TopSalesProduct.jsx:144-145 | after sorting by descending key and taking n, every element left out has a key no larger than any element kept |
| Distinct.SortThenDedup | src/components/ReportsPage/FeaturedReportsButton.jsx:18-46 | sort then first-wins gives one element per key of the input, each the first of its key in sorted order, and in sorted order when the comparator is consistent |
| Distinct.OptKeyDescDedup | src/components/HomePage/LatestReportsListBox.jsx:13-28 | filtering, sorting newest first by a key that is never NaN and de-duplicating leaves the keys non-increasing |
| KeyedSums.SumsOfSpec | src/components/HomePage/TopSalesProduct.jsx:126-135 | the per-key accumulation `m[k] = (m[k] \|\| 0) + v` yields the distinct keys in first-appearance order, each with the sum of the values under that key |
| KeyedSums.SumsStepTotal | src/components/HomePage/TopSalesProduct.jsx:132 | one element more grows only its own key's total, by its value |
| KeyedSums.FilterSumStep | src/components/HomePage/TopSalesProduct.jsx:132 | a filtered sum with one element more grows by that element's value exactly when it passes the filter |
| Trends.CompareSpec | src/components/ReportsPage/MVToggleGraphics.jsx:82-86 | the trend rises exactly when the last value is larger, falls exactly when smaller, is steady when equal, and shows the change relative to the previous value |
| SpanishDates.MonthIndex | src/hooks/useUnifiedReports.jsx:46-50 | a month word is found exactly when its lower-case form is in the table, at the position of that name |
| SpanishDates.MonthIndexOfName | src/hooks/useUnifiedReports.jsx:50 | a month name in any case is found at its own position |
| SpanishDates.MonthNamesDistinct | src/hooks/useUnifiedReports.jsx:46-49 | no two months share a name, so the lookup is unambiguous |
| SpanishDates.SepLettersIgnoreCase | src/hooks/useUnifiedReports.jsx:42 | under the `i` flag a character matches the separator's d or e exactly when it is that letter in either case |
| SpanishDates.PartsMatch | src/hooks/useUnifiedReports.jsx:42 | "d de mes de yyyy" built from 1-2 digits, a name and 4 digits matches at its start and captures those three parts |
| SpanishDates.LongDateMatches | src/components/HomePage/TopSalesProduct.jsx:20 | both long-date patterns read a written long date back: day, month name and year |
| Reports.Coerce | src/hooks/useUnifiedReports.jsx:106-109 | a stored number is kept; stored text becomes a number exactly when `parseInt` reads one from it |
| Reports.PrefixAt | src/hooks/useUnifiedReports.jsx:28 | names which alternative of `reporte-(diario\|mensual\|material)-` occurs at a position, or that none does |
| Reports.FirstPrefixSpec | src/hooks/useUnifiedReports.jsx:28 | finds the leftmost occurrence of the id prefix pattern, with no occurrence before it, or reports that there is none |
| Reports.CleanIdPrefixed | src/hooks/useUnifiedReports.jsx:27-28 | an id starting with a known prefix loses exactly that prefix |
| Reports.CleanIdUnchanged | src/hooks/useUnifiedReports.jsx:27-28 | an id in which no known prefix occurs is kept as it is |
| Reports.MonthKey | src/hooks/useUnifiedReports.jsx:58-59 | a month key exists exactly when both month number and year are truthy |
| Reports.DailyIsoDate | src/hooks/useUnifiedReports.jsx:35-40 | a daily ISO date sets year, month and day from its digits and keeps the string as `fullDateISO` and display date; the report is valid exactly when month and year are non-zero |
| Reports.DailyLongDate | src/hooks/useUnifiedReports.jsx:42-55 | a long date sets day and year from its digits; a known month (in any case) sets the month number and the zero-padded ISO date; an unknown month leaves both unset and the report invalid |
| Reports.DailyNoDate | src/hooks/useUnifiedReports.jsx:33-71 | a date matching neither pattern leaves year, month, ISO date and month key unset and the report invalid |
| Reports.IsoAndLongFormsAgree | src/hooks/useUnifiedReports.jsx:35-59 | the same day written "2025-07-01" or "1 de julio de 2025" normalises to the same year, month, day, ISO date, month key and validity |
| Reports.PeriodicDates | src/hooks/useUnifiedReports.jsx:106-126 | monthly and material reports: text month and year are parsed; the month key exists exactly when both are truthy; the display date is its first day or "N/A"; validity is the same condition |
| Reports.PeriodicDisplayDateIso | src/hooks/useUnifiedReports.jsx:124-126 | for a month in range and a four-digit year the display date is the ISO string of the month's first day |
| Reports.PeriodicMetricsAndId | src/hooks/useUnifiedReports.jsx:128-152 | metrics are chosen by kind (sales and profit, or raw-material and main-ingredient cost); a stored id is kept minus its known prefix; a stored name is kept |
| UnifiedReports.Normalize | src/hooks/useUnifiedReports.jsx:205-238 | while loading the data is empty; otherwise it is the three normalised lists and their combination, with the de-duplication loop computing the first-wins selection |
| UnifiedReports.ReportsProvider.constructor | src/hooks/useUnifiedReports.jsx:167-173 | the provider starts loading with empty lists and empty data |
| UnifiedReports.ReportsProvider.Load | src/hooks/useUnifiedReports.jsx:176-202 | a source that is not an array counts as empty; loading ends and the data is the normalisation of the stored lists |
| UnifiedReports.CombineMembers | src/hooks/useUnifiedReports.jsx:212-224 | every combined report is a valid report with a truthy id from one of the three lists |
| UnifiedReports.CombineIds | src/hooks/useUnifiedReports.jsx:212-224 | the combined list has exactly the ids of the valid reports |
| UnifiedReports.CombineUniqueIds | src/hooks/useUnifiedReports.jsx:216-224 | no id appears twice in the combined list |
| UnifiedReports.CombineFirstWins | src/hooks/useUnifiedReports.jsx:212-224 | the copy kept for an id is the first valid report with that id in daily, monthly, material order |
| UnifiedReports.CombineNewestFirst | src/hooks/useUnifiedReports.jsx:232-236 | when every kept report has a readable date the combined list is newest first, and reports of the same day keep their de-duplicated order |
| UnifiedReports.Bucket | src/hooks/useUnifiedReports.jsx:243 | `normalizedData[type]` exists exactly for the names daily, monthly, material and all |
| UnifiedReports.ReportsByYear | src/hooks/useUnifiedReports.jsx:242-245 | the year query fails (throws) exactly for a non-empty unknown type |
| UnifiedReports.ReportsByYearSpec | src/hooks/useUnifiedReports.jsx:242-245 | the year query keeps, in order and each as often as the chosen list holds it, exactly the reports whose year equals the decimal reading of `parseInt(year)`; a NaN year matches nothing |
| UnifiedReports.ReportsByDateKey | src/hooks/useUnifiedReports.jsx:247-250 | the month-key query fails (throws) exactly for a non-empty unknown type |
| UnifiedReports.ReportsByDateKeySpec | src/hooks/useUnifiedReports.jsx:247-250 | the month-key query keeps, in order and each as often as the chosen list holds it, exactly the reports with that key |
| UnifiedReports.AvailableYearsSpec | src/hooks/useUnifiedReports.jsx:252-258 | the available years are exactly the truthy years of the combined list, strictly decreasing |
| UnifiedReports.ChartReportsOf | src/hooks/useUnifiedReports.jsx:260-264 | a chart reads the year query of the monthly list for 'sales' and of the material list otherwise, and its sort by month number only rearranges them |
| UnifiedReports.ChartDataFails | src/hooks/useUnifiedReports.jsx:260-270 | the chart series fails exactly when one of its reports has an undefined or NaN month number, whose label date is invalid |
| UnifiedReports.ChartDataSpec | src/hooks/useUnifiedReports.jsx:260-270 | the series has one point per report of the chosen list and year, in ascending month order, carrying its main and secondary metrics |
| FavoriteReports.ToggledMembers | src/hooks/useFavoriteReports.js:30-42 | toggling flips the membership of the report's key and of no other key |
| FavoriteReports.ToggledNoDups | src/hooks/useFavoriteReports.js:32-39 | the key list stays free of repetitions, as a `Set` is |
| FavoriteReports.ToggleTwice | src/hooks/useFavoriteReports.js:30-42 | toggling twice restores the set of keys, and the exact list when the key was absent |
| FavoriteReports.KindsIndependent | src/hooks/useFavoriteReports.js:33 | reports with the same id but different types have different keys, so toggling one leaves the other's flag alone |
| FavoriteReports.FavoriteStore.constructor | src/hooks/useFavoriteReports.js:9-17 | the stored keys are read back once each |
| FavoriteReports.FavoriteStore.Toggle | src/hooks/useFavoriteReports.js:30-42 | the new key set is the toggled one and stays free of repetitions |
| FavoriteReports.WithFavorites | src/hooks/useFavoriteReports.js:46-54 | same length and order as the report list (empty when absent), flagging exactly the reports whose key is in the set |
| ReportStats.Summary | src/hooks/useReportStats.js:6-43 | missing data gives all-zero counts and sums; otherwise the total is the length of the combined list, the per-type counts the lengths of the three lists, overall sales the daily plus monthly sums and overall cost the material sum |
| ReportStats.SummaryCountsAddUp | src/hooks/useReportStats.js:30-33 | valid and invalid reports add up to the total |
| ReportStats.SummaryOfStore | src/hooks/useReportStats.js:19-33 | on the store's own data every combined report is valid, and the per-type counts are the sizes of the stored lists |
| ReportStats.SummaryAppendDaily | src/hooks/useReportStats.js:26-42 | a daily report added to the data adds its sales to the daily total and to the overall sales |
| HomePage.Fallback | src/pages/HomePage.jsx:41 | no report for an empty list; otherwise the first favourite, or the first report when there is no favourite |
| HomePage.Reconciled | src/pages/HomePage.jsx:29-47 | none for an empty list; the fallback when nothing was shown or the shown report has left the list; otherwise the list's first report with the shown report's id and type |
| HomePage.WithFavoritesAgree | src/hooks/useFavoriteReports.js:50-53 | reports with the same id and type carry the same favourite flag |
| HomePage.ReconciledIsFirst | src/pages/HomePage.jsx:29-47 | the displayed report sits where no earlier report has its id and type |
| HomePage.ReconcileSettles | src/pages/HomePage.jsx:29-47 | running the effect again on the same list changes nothing, so it settles after one round |
| HomePage.DailyForComponents | src/pages/HomePage.jsx:49-52 | the widgets receive exactly the daily reports, in list order, each as often as the list holds it |
| HomePage.Home.Reconcile | src/pages/HomePage.jsx:29-47 | the effect sets the displayed report to the reconciled one |
| HomePage.Home.constructor | src/pages/HomePage.jsx:22 | the page opens with no report displayed |
| LatestReports.LatestFavorites | src/components/HomePage/LatestReportsListBox.jsx:8-30 | the memo body (filter, sort, first-wins loop) computes the latest-favourites list |
| LatestReports.LatestSpec | src/components/HomePage/LatestReportsListBox.jsx:8-30 | only favourites appear, each favourite key exactly once, each entry the first of its key after sorting |
| LatestReports.LatestNewestFirst | src/components/HomePage/LatestReportsListBox.jsx:15-20 | when every date is valid the entries go from the latest date to the earliest |
| FeaturedReports.UniqueAndSorted | src/components/ReportsPage/FeaturedReportsButton.jsx:9-48 | the memo body (sorted copy, then first-wins loop) computes the featured list |
| FeaturedReports.NewerThenNameConsistent | src/components/ReportsPage/FeaturedReportsButton.jsx:18-36 | with every date valid, the date-then-name comparator is total and transitive |
| FeaturedReports.FeaturedSpec | src/components/ReportsPage/FeaturedReportsButton.jsx:9-48 | no favourites give no entries; one entry per key, each the first of its key in sorted order; with valid dates later dates come first and equal dates are in name order |
| FeaturedReports.PeriodicFeaturedDate | src/components/ReportsPage/FeaturedReportsButton.jsx:24 | a monthly or material report dates from the first day of its month |
| ReportSearch.FilteredSpec | src/components/ReportsPage/SearchReportsBox.jsx:16-27 | keeps, in order and each as often as the list holds it, exactly the reports whose name, summary or report number contains the term, ignoring the case of Latin letters; the empty term keeps all |
| ReportSearch.TermCaseIgnored | src/components/ReportsPage/SearchReportsBox.jsx:17 | any casing of the term's Latin letters finds the same reports |
| ReportSearch.SameLowerSameResults | src/components/ReportsPage/SearchReportsBox.jsx:17 | two terms that lower to the same text find the same reports |
| ReportSearch.AccentedTermFound | src/components/ReportsPage/SearchReportsBox.jsx:16-27 | the upper-case term "MAÍZ" lowers to "maíz" and finds the report named "Pan de maíz" |
| ReportsPage.Partition | src/pages/ReportsPage.jsx:29-54 | the `for` loop pushing each report onto its type's list computes the three in-order selections |
| ReportsPage.PartitionSizes | src/pages/ReportsPage.jsx:39-51 | the three tabs together hold as many reports as the list |
| ReportsPage.PartitionSpec | src/pages/ReportsPage.jsx:29-60 | each tab holds, in order, exactly the reports of its type, material under 'rawMaterial'; an unknown tab name holds nothing |
| ReportsPage.Initial | src/pages/ReportsPage.jsx:72-83 | the stored id's first report when the tab has it, else the tab's first report, else none |
| ReportsPage.TabSelectionSettles | src/pages/ReportsPage.jsx:67-69 | a report from the tab on show never needs replacing |
| ReportsPage.Page.constructor | src/pages/ReportsPage.jsx:22-23 | the page opens on the stored tab, 'daily' when none is stored, with nothing selected |
| ReportsPage.Page.ChangeType | src/pages/ReportsPage.jsx:113-128 | shows the new tab and selects its first report, or none; the selection then belongs to the tab |
| ReportsPage.Page.Select | src/pages/ReportsPage.jsx:131-142 | selecting the selected report changes nothing; otherwise the report is selected and its tab shown |
| ReportsPage.Page.Initialize | src/pages/ReportsPage.jsx:63-89 | while loading, with no reports, or with a selection from the tab on show nothing changes; otherwise the initial report of the tab is selected |
| NavBar.Words | src/components/NavBar.jsx:105 | the pieces of a split on white space are non-empty and hold no white space |
| NavBar.WordsOfOneWord | src/components/NavBar.jsx:105 | a value without white space splits into itself alone |
| NavBar.AddAllSpec | src/components/NavBar.jsx:96-99 | posting terms one by one builds a map holding, per term, exactly the matches posted under it in order, with keys in order of first posting |
| NavBar.IndexWords | src/components/NavBar.jsx:105-107 | the loop posts each word longer than one character, in order |
| NavBar.IndexFields | src/components/NavBar.jsx:92-108 | the loop posts every non-blank field: its text with Latin capitals lowered, then its words |
| NavBar.IndexReport | src/components/NavBar.jsx:81-108 | one report's seven fields are posted in order |
| NavBar.BuildIndex | src/components/NavBar.jsx:76-112 | the nested loops build the search index: empty while loading, otherwise every report's postings in order |
| NavBar.ValueIndexed | src/components/NavBar.jsx:81-108 | every non-blank field of every report can be found under its text with Latin capitals lowered and under each of its words longer than one character |
| NavBar.GetSuggestions | src/components/NavBar.jsx:115-140 | the search loop computes the suggestions: candidates in index order, first per key, sorted by score, first five |
| NavBar.AddTermMatches | src/components/NavBar.jsx:124-134 | the loop over one term's matches extends the first-per-key selection by that term's candidates in order, and the set of seen keys stays the keys of the selection |
| NavBar.CandidatesFacts | src/components/NavBar.jsx:121-134 | every candidate comes from an indexed term containing the query, is a match of that term and carries the score of how it contains it |
| NavBar.SuggestionsRanked | src/components/NavBar.jsx:126-139 | at most five suggestions, by non-increasing score, no two for the same report and field |
| NavBar.SuggestionsOrigin | src/components/NavBar.jsx:121-134 | each suggestion is the first candidate of its key, from a term containing the query, scored 100, 80 or 60 by exact, prefix or inner match |
| NavBar.SuggestionsSpec | src/components/NavBar.jsx:115-140 | no suggestions for a blank or one-character query or while loading; otherwise the ranked, origin-checked list |
| NavBar.SearchBox.constructor | src/components/NavBar.jsx:49-112 | empty term, no suggestions, nothing highlighted or open, and the index built from the reports |
| NavBar.SearchBox.Type | src/components/NavBar.jsx:313 | typing sets the term and nothing else |
| NavBar.SearchBox.TermSettled | src/components/NavBar.jsx:149-159 | the settled term is recorded; the list is recomputed for a term of two characters or more and emptied otherwise, shown only when not empty, highlight cleared; the typed term and the dialog stay |
| NavBar.SearchBox.RouteChanged | src/components/NavBar.jsx:161-165 | a change of route clears the term, hides the list and clears the highlight; the list and the dialog stay |
| NavBar.SearchBox.ClickOutside | src/components/NavBar.jsx:168-180 | a press outside hides the list and changes nothing else |
| NavBar.SearchBox.Focus | src/components/NavBar.jsx:315 | focusing shows the list when the settled term has two characters or more and there are suggestions; otherwise nothing changes |
| NavBar.SearchBox.Open | src/components/NavBar.jsx:182-188 | the report is shown in the dialog, the term cleared, the list hidden and the highlight cleared |
| NavBar.SearchBox.CloseDialog | src/components/NavBar.jsx:190-193 | the dialog is emptied and the search state stays |
| NavBar.SearchBox.Submit | src/components/NavBar.jsx:196-213 | opens the highlighted suggestion, else the best suggestion for the typed term, and then the term is cleared; with neither, the term and the dialog stay; the list is hidden and the highlight cleared |
| NavBar.SearchBox.KeyDown | src/components/NavBar.jsx:221-246 | keys act only while the list is shown; the arrows move the highlight within -1 and the last entry, Escape hides the list, Enter opens the highlighted entry or else submits, with the outcome of Submit; only Enter changes the term or the dialog |
| NavBar.TypeSettleSubmit | src/components/NavBar.jsx:149-213 | typing a term, letting it settle and submitting opens the best suggestion for that term and clears the term; with none the typed term stays and no dialog opens |
| TopSalesProduct.ParseDailyReportDate | src/components/HomePage/TopSalesProduct.jsx:18-29 | a parsed date is always a real calendar date; the empty string gives none |
| TopSalesProduct.ParseLongDate | src/components/HomePage/TopSalesProduct.jsx:18-29 | the long Spanish form of a real day with a four-digit year is read back as that day |
| TopSalesProduct.ParseUnknownMonth | src/components/HomePage/TopSalesProduct.jsx:23-26 | a date whose month word is no Spanish month name is rejected |
| TopSalesProduct.ProcessedReports | src/components/HomePage/TopSalesProduct.jsx:41-47 | one entry per report, in order, carrying the report and a date that, when present, is real |
| TopSalesProduct.OfferedValues | src/components/HomePage/TopSalesProduct.jsx:53-77 | a month, day or year is on offer exactly when some dated report has it, and the offered values are strictly increasing |
| TopSalesProduct.DefaultMonthIsLatest | src/components/HomePage/TopSalesProduct.jsx:85-87 | the default month view starts on the first day of a month with a report, and no report is dated in a later month |
| TopSalesProduct.DefaultDayIsLatest | src/components/HomePage/TopSalesProduct.jsx:90-92 | the default day has a report and no report is dated later |
| TopSalesProduct.DefaultYearIsLatest | src/components/HomePage/TopSalesProduct.jsx:88-89 | the default year has a report and no report is dated in a later year |
| TopSalesProduct.ToProcessMonth | src/components/HomePage/TopSalesProduct.jsx:110-114 | in month mode exactly the reports dated in the chosen month are processed, in list order, each as often as the list holds it |
| TopSalesProduct.ProductNamesSpec | src/components/HomePage/TopSalesProduct.jsx:126-135 | the products totalled are exactly the top-product names of the counted reports, each once |
| TopSalesProduct.Accumulate | src/components/HomePage/TopSalesProduct.jsx:126-135 | the loop leaves both objects keyed by exactly the products, in first-seen order, each with the sum of its bread and of its sales |
| TopSalesProduct.TallySpec | src/components/HomePage/TopSalesProduct.jsx:126-135 | the fold over the reports holds every product's two sums and no key for a product without a report |
| TopSalesProduct.SortedRows | src/components/HomePage/TopSalesProduct.jsx:138-144 | before the cut, one row per product with its totals, no product twice, most bread first |
| TopSalesProduct.TopProductsSpec | src/components/HomePage/TopSalesProduct.jsx:138-145 | at most five rows, no product twice, most bread first, each row the true totals of a product of the period |
| TopSalesProduct.TopProductsAreTop | src/components/HomePage/TopSalesProduct.jsx:144-145 | no product left off the chart sold more bread than any product on it |
| TopSalesProduct.Widget.constructor | src/components/HomePage/TopSalesProduct.jsx:32-47 | the widget opens in month view with no period chosen and no rows |
| TopSalesProduct.Widget.ChangeViewMode | src/components/HomePage/TopSalesProduct.jsx:155-159 | switches the view and forgets the chosen date and year |
| TopSalesProduct.Widget.SelectDefaults | src/components/HomePage/TopSalesProduct.jsx:84-94 | with nothing chosen for the view mode, chooses the last month, year or day on offer; otherwise changes nothing |
| TopSalesProduct.Widget.Refresh | src/components/HomePage/TopSalesProduct.jsx:101-148 | the rows become the top products of the reports of the chosen period; nothing else changes |
| MVToggleGraphics.SumSales | src/components/ReportsPage/MVToggleGraphics.jsx:41-49 | the loop over the reports computes the sums map: each product's estimated sales summed over every listed entry, keys in first-listed order |
| MVToggleGraphics.AddReport | src/components/ReportsPage/MVToggleGraphics.jsx:43-48 | one report's products add their counts to the running sums, as if appended to the entries already read |
| MVToggleGraphics.ColorBars | src/components/ReportsPage/MVToggleGraphics.jsx:51-60 | one bar per map entry, coloured by its position; the running maximum is at least 0, bounds every bar and is 0 or some bar's total |
| MVToggleGraphics.BuildBars | src/components/ReportsPage/MVToggleGraphics.jsx:40-62 | the bar chart data after the sort, with the largest total as the maximum |
| MVToggleGraphics.Slices | src/components/ReportsPage/MVToggleGraphics.jsx:123-127 | one slice per listed product, in order, with its count and the pie colour of its position modulo ten |
| MVToggleGraphics.ColoredSpec | src/components/ReportsPage/MVToggleGraphics.jsx:41-60 | before the sort, the bar at each position is the product first listed at that position, with its total over all reports and the colour of that position; no product twice |
| MVToggleGraphics.BarDataSpec | src/components/ReportsPage/MVToggleGraphics.jsx:41-62 | after the sort, exactly one bar per listed product with its true total and the colour of its first listing; larger totals first |
| MVToggleGraphics.BarColorsCycle | src/components/ReportsPage/MVToggleGraphics.jsx:10-58 | every bar is drawn in one of the five bar colours |
| MVToggleGraphics.BarChartData | src/components/ReportsPage/MVToggleGraphics.jsx:40-94 | no bars off the monthly tab or without reports; on it one bar per distinct product |
| MVToggleGraphics.TrendSpec | src/components/ReportsPage/MVToggleGraphics.jsx:79-88 | a trend line only with bars, two months and sales in the month before last; it rises, falls or holds exactly as the last month's sales compare, with the relative change as percentage |
| MVToggleGraphics.PieFor | src/components/ReportsPage/MVToggleGraphics.jsx:117-160 | unavailable exactly off the monthly tab or without reports; shows the first report of the active month with its slices and total when it lists products; otherwise a no-data note for a truthy month or a prompt to choose one |
| MVToggleGraphics.MonthColor | src/components/ReportsPage/MVToggleGraphics.jsx:167 | the pie colour at the month number modulo 10 for a non-negative integer, else gray |
| MVToggleGraphics.AvailableMonthsSpec | src/components/ReportsPage/MVToggleGraphics.jsx:162-171 | one option per report with its month number, label and colour; no options without reports; ordered by month number when every month number is a number |
| MVToggleGraphics.Graphics.constructor | src/components/ReportsPage/MVToggleGraphics.jsx:97 | the active month starts empty |
| MVToggleGraphics.Graphics.SyncActiveMonth | src/components/ReportsPage/MVToggleGraphics.jsx:104-115 | on the monthly tab with reports, the last report's month if truthy, else the first's if truthy, else no change; elsewhere empty |
| MVToggleGraphics.Graphics.SelectMonth | src/components/ReportsPage/MVToggleGraphics.jsx:193-196 | the month selector sets the active month |
| MVToggleGraphics.Graphics.Pie | src/components/ReportsPage/MVToggleGraphics.jsx:117-129 | a shown pie belongs to a report of the active month |
| MVToggleGraphics.LatestMonthShown | src/components/ReportsPage/MVToggleGraphics.jsx:104-129 | after the effect, with every report listing products, the pie shows the last report's month |
| RMVToggleGraphics.ToInt32 | src/components/ReportsPage/RMVToggleGraphics.jsx:22 | the 32-bit wrap of the shift: a value in the signed 32-bit range congruent to the input modulo 2^32 |
| RMVToggleGraphics.HashBound | src/components/ReportsPage/RMVToggleGraphics.jsx:20-23 | the hash of a name grows by less than 2^32 a character, so it stays exact in floating point for any realistic name |
| RMVToggleGraphics.PastelColor | src/components/ReportsPage/RMVToggleGraphics.jsx:17-35 | the empty name gets the default green; any other name one of the five pastels, chosen by the hash's magnitude modulo 5 |
| RMVToggleGraphics.RawMaterialReportsSpec | src/components/ReportsPage/RMVToggleGraphics.jsx:46-71 | the raw-material list comes from rawMaterial, else material, taken whole; else from the plain array or from all, keeping in order and with their multiplicities exactly their raw-material reports; else empty |
| RMVToggleGraphics.BarChartData | src/components/ReportsPage/RMVToggleGraphics.jsx:74-118 | no rows unless a raw-material report is selected; otherwise one row per observation with its item, quantity, cost and unit, an empty unit for a missing one |
| RMVToggleGraphics.AvailableMaterials | src/components/ReportsPage/RMVToggleGraphics.jsx:121-133 | the nested loops and the sort give the distinct observed items in string order |
| RMVToggleGraphics.AddItems | src/components/ReportsPage/RMVToggleGraphics.jsx:125-127 | adding one report's items to the set keeps first-seen order without repetition |
| RMVToggleGraphics.AvailableMaterialsSpec | src/components/ReportsPage/RMVToggleGraphics.jsx:121-133 | the materials on offer are exactly the observed items, each once, in increasing string order |
| RMVToggleGraphics.SyncedSpec | src/components/ReportsPage/RMVToggleGraphics.jsx:139-147 | with materials on offer the active material is one of them and a truthy one already listed is kept; with none it is null; a second run changes nothing |
| RMVToggleGraphics.RadarSelection.constructor | src/components/ReportsPage/RMVToggleGraphics.jsx:136 | no material is active at first |
| RMVToggleGraphics.RadarSelection.Sync | src/components/ReportsPage/RMVToggleGraphics.jsx:139-147 | the effect leaves the synchronised selection, which is on offer whenever something is |
| RMVToggleGraphics.RadarSelection.Select | src/components/ReportsPage/RMVToggleGraphics.jsx:263 | the selector sets the active material |
| RMVToggleGraphics.PointKeyDefined | src/components/ReportsPage/RMVToggleGraphics.jsx:179-186 | every radar label's year reads back as a number |
| RMVToggleGraphics.FullYearOfCentury | src/components/ReportsPage/RMVToggleGraphics.jsx:167-182 | a year from 2000 to 2099 is read back exactly from its last two digits |
| RMVToggleGraphics.RadarDataSpec | src/components/ReportsPage/RMVToggleGraphics.jsx:157-187 | no points without an active material or reports; otherwise a permutation of one point per report observing the material, ordered by the date read back from each label |
| RMVToggleGraphics.ChronologicalKey | src/components/ReportsPage/RMVToggleGraphics.jsx:167-186 | for years 2000 to 2099 a label's sort key is the year and the month position in months, and a known abbreviation has its position in the list |
| RMVToggleGraphics.RadarTrendSpec | src/components/ReportsPage/RMVToggleGraphics.jsx:203-217 | with two points or more: the comparison of the last two values when the earlier is positive, otherwise up from zero exactly when the last is positive; no trend with fewer |
| Paging.PageCountSpec | src/components/SettingsPage/Sub-Components/Management/InventoryVIewSection.jsx:120 | the page count is the least number of pages that holds all items, zero exactly for no items |
| Paging.PageOfSpec | src/components/SettingsPage/Sub-Components/Management/InventoryVIewSection.jsx:121-122 | a page holds at most a page's worth of items, those from its start index in order; it is empty exactly past the last page, and every earlier page is full |
| Paging.ItemOnPage | src/components/SettingsPage/Sub-Components/Management/InventoryVIewSection.jsx:120-122 | every item appears on a page in range, at its position modulo the page size |
| TableIVS.Split | src/components/SettingsPage/Sub-Components/Management/TableIVS.jsx:68 | a split yields at least one piece |
| TableIVS.SplitJoin | src/components/SettingsPage/Sub-Components/Management/TableIVS.jsx:68 | the pieces of a split joined by the separator give back the string, and no piece holds the separator |
| TableIVS.SplitOfJoin | src/components/SettingsPage/Sub-Components/Management/TableIVS.jsx:68 | splitting separator-free pieces joined by the separator gives back the pieces |
| TableIVS.FormatNormalizedDate | src/components/SettingsPage/Sub-Components/Management/TableIVS.jsx:61-77 | the date column is never empty text |
| TableIVS.IsoFallback | src/components/SettingsPage/Sub-Components/Management/TableIVS.jsx:66-70 | a daily report lacking day, month or year but with an ISO date shows it as day/month/year |
| TableIVS.IsoDailyShowsLongDate | src/components/SettingsPage/Sub-Components/Management/TableIVS.jsx:62-65 | a stored daily report with an ISO date shows the day, the Spanish month name and the year |
| TableIVS.PeriodicDateText | src/components/SettingsPage/Sub-Components/Management/TableIVS.jsx:71-76 | monthly and material reports show their details date, or N/A without one |
| TableIVS.PreviousPage | src/components/SettingsPage/Sub-Components/Management/TableIVS.jsx:243 | the previous-page button never goes below page 1 |
| TableIVS.NextPage | src/components/SettingsPage/Sub-Components/Management/TableIVS.jsx:252 | the next-page button never goes past the last page |
| TableIVS.PageButtonsInRange | src/components/SettingsPage/Sub-Components/Management/TableIVS.jsx:243-254 | from a page in range both buttons stay in range, moving one page unless already at the first or last |
| TableIVS.RangeLabelSpec | src/components/SettingsPage/Sub-Components/Management/TableIVS.jsx:237 | on a page in range the label names the 1-based positions of the first and last rows shown, which are exactly that page's rows |
| InventoryView.NextSortAlternates | src/components/SettingsPage/Sub-Components/Management/InventoryVIewSection.jsx:189-194 | a header click sorts by that column; a new column starts descending and repeated clicks on it alternate the direction |
| InventoryView.SortIcon | src/components/SettingsPage/Sub-Components/Management/InventoryVIewSection.jsx:228-231 | the neutral icon exactly for other columns, the up chevron exactly for the column sorted ascending, the down chevron exactly for it sorted descending |
| InventoryView.CmpConsistent | src/components/SettingsPage/Sub-Components/Management/InventoryVIewSection.jsx:96-113 | a strict weak order on a column makes the comparator consistent in either direction, returning 1 exactly when the pair is out of order |
| InventoryView.SortedByLess | src/components/SettingsPage/Sub-Components/Management/InventoryVIewSection.jsx:96-113 | sorting with the comparator keeps the rows and leaves them non-decreasing or non-increasing in the column's order |
| InventoryView.LessStrictWeak | src/components/SettingsPage/Sub-Components/Management/InventoryVIewSection.jsx:97-111 | every sortable column orders the rows consistently, the date column provided every date is valid |
| InventoryView.VisibleMembers | src/components/SettingsPage/Sub-Components/Management/InventoryVIewSection.jsx:85-117 | the table lists each report matching both the search (name or report number, ignoring the case of Latin letters) and the type, as often as the data holds it, and no other |
| InventoryView.VisibleTextOrder | src/components/SettingsPage/Sub-Components/Management/InventoryVIewSection.jsx:96-113 | sorted by name or type, the rows are in string order in the column's direction |
| InventoryView.VisibleMetricOrder | src/components/SettingsPage/Sub-Components/Management/InventoryVIewSection.jsx:104-113 | sorted by the metric column, the amounts rise or fall with the direction |
| InventoryView.VisibleDateOrder | src/components/SettingsPage/Sub-Components/Management/InventoryVIewSection.jsx:101-113 | when every report has a valid date, sorting by date gives time order, oldest or newest first |
| InventoryView.TypeCount | src/components/SettingsPage/Sub-Components/Management/InventoryVIewSection.jsx:127-150 | a type card counts the reports of that type, 0 when there are none |
| InventoryView.KindsAddUp | src/components/SettingsPage/Sub-Components/Management/InventoryVIewSection.jsx:147-150 | the three type cards count every report exactly once |
| InventoryView.RevenueSplit | src/components/SettingsPage/Sub-Components/Management/InventoryVIewSection.jsx:132-139 | revenue is the daily sales plus the monthly main metric, with nothing from material reports |
| InventoryView.StatsSpec | src/components/SettingsPage/Sub-Components/Management/InventoryVIewSection.jsx:125-154 | the total is the number of reports and equals the sum of the type counts; each count is its type's reports; revenue and material cost sum only their own types |
| InventoryView.StatsAppend | src/components/SettingsPage/Sub-Components/Management/InventoryVIewSection.jsx:125-154 | one report more adds one to the total and to its type's count, and its figure to the revenue or to the material cost as its type says |
| InventoryView.InventoryTable.constructor | src/components/SettingsPage/Sub-Components/Management/InventoryVIewSection.jsx:36-41 | the view opens with an empty search, all types, page 1, sorted by date descending |
| InventoryView.InventoryTable.HandleSort | src/components/SettingsPage/Sub-Components/Management/InventoryVIewSection.jsx:189-194 | only the sort changes, to the next sort for the clicked column |
| InventoryView.InventoryTable.SetSearchTerm | src/components/SettingsPage/Sub-Components/Management/InventoryVIewSection.jsx:233-236 | the term is set, and the page returns to 1 when it changed |
| InventoryView.InventoryTable.SetTypeFilter | src/components/SettingsPage/Sub-Components/Management/InventoryVIewSection.jsx:233-236 | the type is set, and the page returns to 1 when it changed |
| InventoryView.InventoryTable.GoPrevious | src/components/SettingsPage/Sub-Components/Management/TableIVS.jsx:243-244 | one page back, never below page 1; nothing else changes |
| InventoryView.InventoryTable.GoNext | src/components/SettingsPage/Sub-Components/Management/TableIVS.jsx:251-254 | while enabled, one page forward, never past the last page; nothing else changes |
| InventoryView.CurrentPageSpec | src/components/SettingsPage/Sub-Components/Management/InventoryVIewSection.jsx:120-122 | the current page shows at most seven rows, each the row at its offset from the page's start, none past the last page, and the range label counts exactly those rows |
| CustomerManagement.WithField | src/components/SettingsPage/Sub-Components/Management/CustomerManagementSection.jsx:57 | the edited field takes the new value and every other field keeps its own |
| CustomerManagement.Apply | src/components/SettingsPage/Sub-Components/Management/CustomerManagementSection.jsx:137-143 | the form's fields over the customer's, keeping the customer's id |
| CustomerManagement.EmailShapeOf | src/components/SettingsPage/Sub-Components/Management/CustomerManagementSection.jsx:68 | non-empty local part, domain and suffix without white space, joined by `@` and `.`, have the pattern's shape whatever text surrounds them |
| CustomerManagement.EmailNeedsDotAfterAt | src/components/SettingsPage/Sub-Components/Management/CustomerManagementSection.jsx:68 | text with no dot after any at sign is rejected |
| CustomerManagement.CheckForm | src/components/SettingsPage/Sub-Components/Management/CustomerManagementSection.jsx:63-75 | the form passes exactly when name, email and phone are filled and the email has the pattern's shape, exactly when no error is recorded; each error is recorded exactly when its check fails, with its message; address and notes are never checked |
| CustomerManagement.Edited | src/components/SettingsPage/Sub-Components/Management/CustomerManagementSection.jsx:136-138 | editing keeps the number of customers |
| CustomerManagement.EditedSpec | src/components/SettingsPage/Sub-Components/Management/CustomerManagementSection.jsx:136-138 | editing keeps every id in place, gives the form's fields to the customers with the edited id, leaves the others alone, is idempotent and keeps ids distinct |
| CustomerManagement.RemovedSpec | src/components/SettingsPage/Sub-Components/Management/CustomerManagementSection.jsx:154 | deleting drops exactly the customers with that id, keeps the rest in order and each as often as before, keeps ids distinct, and changes nothing for an unknown id |
| CustomerManagement.FilterDistinctIds | src/components/SettingsPage/Sub-Components/Management/CustomerManagementSection.jsx:154 | a deletion keeps distinct ids distinct |
| CustomerManagement.AddedSpec | src/components/SettingsPage/Sub-Components/Management/CustomerManagementSection.jsx:143-144 | a new customer goes at the end with the form's fields and the new id; a fresh id keeps the ids distinct |
| CustomerManagement.FilteredSpec | src/components/SettingsPage/Sub-Components/Management/CustomerManagementSection.jsx:161-167 | the search keeps, in order and each as often as the list holds it, exactly the customers whose name, email or phone contains the term, ignoring the case of Latin letters; the empty term keeps all |
| CustomerManagement.CurrentCustomersSpec | src/components/SettingsPage/Sub-Components/Management/CustomerManagementSection.jsx:169-171 | a page shows at most eight customers, those from its start in order, none past the last page |
| CustomerManagement.CustomerManager.constructor | src/components/SettingsPage/Sub-Components/Management/CustomerManagementSection.jsx:17-46 | the list as stored, empty search, page 1, the dialog closed, an empty form without errors |
| CustomerManagement.CustomerManager.HandleFormChange | src/components/SettingsPage/Sub-Components/Management/CustomerManagementSection.jsx:55-61 | only the edited field changes, and only its error is cleared, when it had one |
| CustomerManagement.CustomerManager.ValidateForm | src/components/SettingsPage/Sub-Components/Management/CustomerManagementSection.jsx:63-75 | records the required-field error for each blank name, email or phone and the format error for a filled email without the pattern's shape, with their messages and no other entry; answers whether the form is valid; nothing else changes |
| CustomerManagement.CustomerManager.HandleAddCustomerClick | src/components/SettingsPage/Sub-Components/Management/CustomerManagementSection.jsx:77-82 | no customer being edited, an empty form without errors, the dialog open |
| CustomerManagement.CustomerManager.HandleEditCustomerClick | src/components/SettingsPage/Sub-Components/Management/CustomerManagementSection.jsx:84-95 | the customer being edited and the form filled from it, no errors, the dialog open |
| CustomerManagement.CustomerManager.HandleSaveCustomer | src/components/SettingsPage/Sub-Components/Management/CustomerManagementSection.jsx:126-150 | an invalid form changes no customer and keeps the dialog open; a valid one edits the current customer or appends a new one with the new id, and closes the dialog |
| CustomerManagement.CustomerManager.HandleDeleteCustomer | src/components/SettingsPage/Sub-Components/Management/CustomerManagementSection.jsx:152-159 | removes the customers with that id when confirmed; otherwise nothing changes |
| CustomerManagement.CustomerManager.SetSearchTerm | src/components/SettingsPage/Sub-Components/Management/CustomerManagementSection.jsx:173-175 | the term is set, and the page returns to 1 when it changed; the customers, the form, its errors, the edited customer and the dialog stay as they were |
| CustomerManagement.CustomerManager.FirstPage | src/components/SettingsPage/Sub-Components/Management/CustomerManagementSection.jsx:379-380 | goes to the first page; the customers, the term, the form, its errors, the edited customer and the dialog stay as they were |
| CustomerManagement.CustomerManager.PreviousPageClick | src/components/SettingsPage/Sub-Components/Management/CustomerManagementSection.jsx:388-389 | one page back, never below the first; the customers, the term, the form, its errors, the edited customer and the dialog stay as they were |
| CustomerManagement.CustomerManager.NextPageClick | src/components/SettingsPage/Sub-Components/Management/CustomerManagementSection.jsx:400-401 | one page forward, never past the last; the customers, the term, the form, its errors, the edited customer and the dialog stay as they were |
| CustomerManagement.CustomerManager.LastPage | src/components/SettingsPage/Sub-Components/Management/CustomerManagementSection.jsx:409-410 | goes to the last page; the customers, the term, the form, its errors, the edited customer and the dialog stay as they were |
| NotificationSettings.MarkedRead | src/components/SettingsPage/Sub-Components/Preferencess/NotificationSettingsSection.jsx:213-217 | marking read keeps the number of notifications |
| NotificationSettings.UnreadNotMore | src/components/SettingsPage/Sub-Components/Preferencess/NotificationSettingsSection.jsx:213-258 | marking read never raises the unread count |
| NotificationSettings.MarkedReadSpec | src/components/SettingsPage/Sub-Components/Preferencess/NotificationSettingsSection.jsx:213-217 | only the read flag of the entries with that id changes, to read; the unread count cannot grow; marking again changes nothing |
| NotificationSettings.ClosedSpec | src/components/SettingsPage/Sub-Components/Preferencess/NotificationSettingsSection.jsx:200-202 | closing drops exactly the entries with that id and keeps the others in order, each as often as before |
| NotificationSettings.PageAfterCloseInRange | src/components/SettingsPage/Sub-Components/Preferencess/NotificationSettingsSection.jsx:203-208 | after a close the page is 1 or a page that still exists |
| NotificationSettings.FirstPagesWindow | src/components/SettingsPage/Sub-Components/Preferencess/NotificationSettingsSection.jsx:293-294 | near the start the list is 1 to 4, an ellipsis and the last page: increasing, gaps marked, current page included |
| NotificationSettings.LastPagesWindow | src/components/SettingsPage/Sub-Components/Preferencess/NotificationSettingsSection.jsx:295-296 | near the end the list is 1, an ellipsis and the last four pages, with the same guarantees |
| NotificationSettings.MiddleWindow | src/components/SettingsPage/Sub-Components/Preferencess/NotificationSettingsSection.jsx:297-298 | in the middle the list is 1, an ellipsis, the current page with its neighbours, an ellipsis and the last page, with the same guarantees |
| NotificationSettings.PageNumbers | src/components/SettingsPage/Sub-Components/Preferencess/NotificationSettingsSection.jsx:286-302 | up to five pages, every page in order; beyond, six or seven increasing entries from 1 to the last page with ellipses exactly at skipped pages and the current page among them |
| NotificationSettings.NotificationCenter.constructor | src/components/SettingsPage/Sub-Components/Preferencess/NotificationSettingsSection.jsx:97-122 | an empty inbox on page 1 with the saved settings |
| NotificationSettings.NotificationCenter.ProcessNotification | src/components/SettingsPage/Sub-Components/Preferencess/NotificationSettingsSection.jsx:184-198 | a notification of a switched-off or unknown kind changes nothing; otherwise it goes first when in-app notifications are on, and the page returns to 1 |
| NotificationSettings.NotificationCenter.HandleCloseNotification | src/components/SettingsPage/Sub-Components/Preferencess/NotificationSettingsSection.jsx:200-211 | the entry is closed and the page moved back into range |
| NotificationSettings.NotificationCenter.HandleMarkAsRead | src/components/SettingsPage/Sub-Components/Preferencess/NotificationSettingsSection.jsx:213-217 | the entries with that id are marked read; the page stays |
| NotificationSettings.NotificationCenter.ClearAll | src/components/SettingsPage/Sub-Components/Preferencess/NotificationSettingsSection.jsx:219-222 | an empty inbox on page 1 |
| NotificationSettings.NotificationCenter.GoToPreviousPage | src/components/SettingsPage/Sub-Components/Preferencess/NotificationSettingsSection.jsx:268-272 | one page back unless on the first |
| NotificationSettings.NotificationCenter.GoToNextPage | src/components/SettingsPage/Sub-Components/Preferencess/NotificationSettingsSection.jsx:274-278 | one page forward unless on the last |
| NotificationSettings.NotificationCenter.GoToPage | src/components/SettingsPage/Sub-Components/Preferencess/NotificationSettingsSection.jsx:280-284 | only an existing page is shown; any other number changes nothing |
| NotificationSettings.NotificationCenter.GetPageNumbers | src/components/SettingsPage/Sub-Components/Preferencess/NotificationSettingsSection.jsx:286-302 | the page list holds the current page when pages are elided, and one entry per page otherwise |
| NotificationSettings.UnreadAfterPrepend | src/components/SettingsPage/Sub-Components/Preferencess/NotificationSettingsSection.jsx:192-258 | a new notification adds one to the unread count when it is unread |
| NotificationSettings.CurrentNotificationsSpec | src/components/SettingsPage/Sub-Components/Preferencess/NotificationSettingsSection.jsx:260-266 | at most three entries, those from the page's start in order, none only past the last page |
| ToolsBox.Resized | src/components/HomePage/ToolsBox.jsx:86-141 | a resize never leaves the notepad below 200 by 150 |
| ToolsBox.ResizeMove | src/components/HomePage/ToolsBox.jsx:86-141 | the switch on the handle followed by the minimum-size correction gives the edge-by-edge resize; the correction acts only on a dimension the handle does not touch that started below its minimum |
| ToolsBox.EastSouthKeepPosition | src/components/HomePage/ToolsBox.jsx:90-99 | the right, bottom and bottom-right handles never move the notepad; from a size at least the minimum the right handle changes only the width and the bottom one only the height |
| ToolsBox.WestNorthFollowPointer | src/components/HomePage/ToolsBox.jsx:100-123 | the left-edge handles move the left side with the pointer and the top-edge handles the top side; no other handle moves that coordinate |
| ToolsBox.OppositeEdgeStays | src/components/HomePage/ToolsBox.jsx:100-123 | while the dimension stays at or above its minimum, the edge opposite a left or top handle does not move |
| ToolsBox.WestPastMinimumSlides | src/components/HomePage/ToolsBox.jsx:100-141 | past the minimum width a left handle holds the width at 200 while the notepad keeps following the pointer, so its right edge moves |
| ToolsBox.Notepad.constructor | src/components/HomePage/ToolsBox.jsx:9-31 | the stored position and size when present, else centred near the window's middle at 400 by 300, with nothing pressed |
| ToolsBox.Notepad.HandleMouseDown | src/components/HomePage/ToolsBox.jsx:50-57 | a press on the title bar starts a drag from the current position; a press elsewhere changes nothing |
| ToolsBox.Notepad.HandleResizeMouseDown | src/components/HomePage/ToolsBox.jsx:60-67 | a press on a handle starts a resize from the current position and size |
| ToolsBox.Notepad.HandleMouseMove | src/components/HomePage/ToolsBox.jsx:69-146 | a drag moves the notepad by the pointer's displacement; a resize reshapes it from where it started; otherwise nothing changes |
| ToolsBox.Notepad.HandleMouseUp | src/components/HomePage/ToolsBox.jsx:148-151 | releasing ends any drag or resize and leaves the notepad where it is |
| ToolsBox.ReleasedMoveIsInert | src/components/HomePage/ToolsBox.jsx:69-151 | after the release, moving the pointer neither moves nor resizes the notepad |
| ProductsBarChart.TruncateString | src/components/ui/ProductsBarChart.jsx:53-61 | a string within the limit is kept; a longer one becomes its first characters up to the limit followed by "..." |
| ProductsBarChart.AxisLabelBound | src/components/ui/ProductsBarChart.jsx:53-68 | an axis label is at most 18 characters: the whole name up to 15, else its first 15 and "..." |
| ProductsBarChart.Colored | src/components/ui/ProductsBarChart.jsx:180-184 | a bar keeps the product's fields and takes the given colour |
| ProductsBarChart.WithColors | src/components/ui/ProductsBarChart.jsx:180-184 | one bar per product |
| ProductsBarChart.BarColorsCycle | src/components/ui/ProductsBarChart.jsx:180-184 | each bar keeps its product's fields and takes the colour of its position modulo five; the first five colours differ and every bar shares its colour with the one five places on |
| ProductsBarChart.NumberOrZero | src/components/ui/ProductsBarChart.jsx:106-107 | a number is kept; anything else reads as 0 |
| ProductsBarChart.ChartView | src/components/ui/ProductsBarChart.jsx:94-184 | the placeholder exactly for missing or empty data, the single-product gauges exactly for one product, otherwise one bar per product |
| ProductsBarChart.SingleProductCoerces | src/components/ui/ProductsBarChart.jsx:104-107 | a single product is shown with its name and its quantity and total, 0 standing for a missing or non-numeric one |
| ProductsBarChart.EndAngle | src/components/ui/ProductsBarChart.jsx:119 | a gauge sweeps at most 360 degrees, exactly 360 once the amount reaches the maximum, and never a negative angle for a non-negative amount |

## Left out

- Rendering: JSX, styling, animation, the chart wrappers, the selectors and the dialogs. They only pass data through.
- Static sections: the information, policy, version, export-method, API-key, pending-orders and business-info sections, and the application entry points. They hold no logic.
- Persistence: localStorage and cookies are not modelled. This covers the favourites, the customers, the notification settings, the notepad's position and size, and the reports page's selection keys. What storage would return is a constructor or method parameter (`storedPosition`, `savedId`, `saved`).
- PDF export: jsPDF and autoTable are foreign calls with page-layout coordinates.
- Floating point: money, quantities and metrics are integers. The `toFixed`/`toLocaleString` texts, percentages, averages, sound volume and the texts built from them are not modelled.
- `NaN` metrics: a sales or metric figure that reads as `NaN` after `parseInt`/`parseFloat` is not modelled, except where a numeric field is explicitly `undefined`, `null` or `NaN`.
- Dates: date-fns `format` and `toLocaleDateString` are not modelled. The search index takes the localized date text as a parameter (`localized`). A fixed Spanish month table stands in for the locale.
- `new Date(string)`: only ISO `YYYY-MM-DD` text is parsed. Any other string is taken as an invalid date. Local time and UTC are not told apart.
- ISO months: they are not range-checked, as in the code.
- Randomness and clocks: `Math.random` id suffixes, `uuidv4`, `Date.now`, `window.confirm` and the random test notification are parameters.
- Browser plumbing: timers, DOM events, `preventDefault`, the clipboard, toasts, and the Notification and AudioContext APIs are not modelled. The debounce delay is not modelled: the settled term is the argument of `NavBar.SearchBox.TermSettled`. Whether a press landed outside the box is not modelled either: `NavBar.SearchBox.ClickOutside` is what happens when it did.
- The provider check: the throw when the unified-reports context is used outside its provider is not modelled.
- Static data modules: the three report lists are inputs, not logic.
- Strings: `===` on values is value equality, and `localeCompare` and `<` on strings are code-unit order. `String()` of a non-string is not modelled beyond numbers. A Dafny `char` is one Unicode scalar value, while JavaScript strings are UTF-16 code units. Lengths, `slice` positions and the truncation of long texts therefore differ for characters outside the Basic Multilingual Plane, such as emoji. Those characters are not modelled.
- Case mapping: `toLowerCase` and `toUpperCase` are modelled for ASCII, Latin-1 and Latin Extended-A (up to U+017F). Four cases are not modelled. Other scripts, such as Greek and Cyrillic, keep their case. U+0130 (İ) lowers to two characters in JavaScript. `ß`, `µ`, `ı`, `ſ` and `ŉ` have special upper-case forms.
- `Object.entries` order: JavaScript lists integer-like keys first, and this is not modelled. A product named `__proto__` is not modelled either.
- Month keys: `'yyyy-MM'` texts are compared as integers `y * 100 + m`. That agrees with string order only for four-digit years.
- Favourites: the favourites `Set` is an insertion-ordered sequence without duplicates. Only membership is observable.
- MVToggleGraphics.SumSales: `allReports` present but without `.monthly` makes the code crash. It is folded into the missing-data case. An undefined `estimatedSalesCount` counts as `NaN`. The chart configuration and title texts are not modelled.
- RMVToggleGraphics.RadarDataSpec: a radar label whose month part contains `". "` within its first three characters is not modelled. Month and year are kept apart instead of splitting the label.
- RMVToggleGraphics.PastelColor: the hash equals the source's only for names shorter than 2^21 characters, where no double-precision rounding happens.
- RMVToggleGraphics: a missing month or year, which makes the code throw, is not modelled. The year is an integer. The `toLocaleString` footer and an undefined observation item are not modelled.
- InventoryView.VisibleDateOrder: the date order is proved only when every date is valid. Metrics are integers and only the four sortable columns are modelled.
- InventoryView: the summary text, dialogs, copy and download are not modelled.
- CustomerManagement: loading from and saving to localStorage, the copy dialog and the toast are not modelled.
- NotificationSettings: the cookie settings merge is a parameter. The desktop, sound and permission APIs are not modelled, nor the timestamp or the `desktopNotifications` switch. Float ids are integers.
- ToolsBox: a malformed stored JSON value is read as absent. Coordinates are reals.
- ToolsBox.ResizeMove: the block after the `switch` changes a dimension only when the handle does not touch that dimension and it was already below its minimum, for example a stored undersized notepad. From a valid size the block never fires.
- ProductsBarChart.NumberOrZero: `typeof x === 'number'` also holds for `NaN`, which is not modelled. The recharts rendering, the tooltip and the number texts are not modelled.
- ProductsBarChart.WithColors: its own contract states only the length. The colours and fields are stated in `ProductsBarChart.BarColorsCycle`.
- ReportSearch.FilteredSpec: matches ignore the case of Latin letters only, as described under Case mapping.
- ReportSearch.TermCaseIgnored: holds for the case of Latin letters only, as described under Case mapping.
- NavBar.IndexFields: index keys are lowered for Latin letters only, as described under Case mapping.
- NavBar.ValueIndexed: index keys are lowered for Latin letters only, as described under Case mapping.
- InventoryView.VisibleMembers: the search ignores the case of Latin letters only, as described under Case mapping.
- CustomerManagement.FilteredSpec: the search ignores the case of Latin letters only, as described under Case mapping.
- UnifiedReports.ReportsByYear: `parseInt(year)` at useUnifiedReports.jsx:244 has no radix, so a year given as text starting with "0x" is read as hexadecimal. The model reads decimal only.
- UnifiedReports.ReportsByYearSpec: states the decimal reading of the year, for the reason given for `UnifiedReports.ReportsByYear`.
- MVToggleGraphics.PieFor: a `topProductsThisMonth` that is truthy but not an array makes the code throw at MVToggleGraphics.jsx:122-123. The model's product list is always a sequence, so this case cannot arise.
