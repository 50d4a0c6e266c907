# my-analytics: the reconciler and the dashboard logic, in Dafny

This project models the two computational parts of a small project-finance dashboard.

**The sheet reconciler** is the API handler in `api/sheets.js`. It takes the rows of a "Revenue" tab and an "Expenses" tab and folds them into one record per project id. The record holds:
- the partner, the product (the `Package` column), the normalised country and a `YYYY-MM` month key;
- the largest image count seen for the project;
- five revenue buckets and five expense buckets. Each row's line item is mapped to a bucket, and the amount is parsed and added there.

**The dashboard logic** is in `src/App.jsx`:
- the per-project totals and ratios (`calcTotals`);
- the partner grouping used by the charts;
- the `filtered` list, the headline `totals` and `deleteProject`;
- the grouped analysis (`GroupedAnalysis`);
- the month-by-partner cells of the revenue, travel and margin charts;
- the product tally, top-ten choice and cost-per-image bars of the expense-per-image chart.

Module layout, bottom to top:

- `Wrappers`, `Seqs`, `Text`, `Classes`, `JsObjects`: these are the JavaScript semantics the code relies on.
  - `String.prototype.trim` and `toLowerCase`; string `<` is code-unit order.
  - `split`, `padStart`, `filter`, `reduce` and `Array.prototype.sort` (stable).
  - The bucketing idiom `(map[k] = map[k] || []).push(p)`.
  - The property order of `Object.keys`/`values`/`entries`: array-index keys ascending, then the other keys in insertion order (section 10.1.11.1 of ECMA-262, OrdinaryOwnPropertyKeys).
- `Records`: the project record and its two bucket tables.
- `LineItems`, `Country`, `Amounts`, `Dates`, `SheetUrl`: the lookup tables and the cell parsers of the reconciler.
  - `Amounts` models JavaScript's `parseFloat` on decimal numerals.
  - `Dates` models `toYearMonth`. The `Date` constructor is a parameter (`DateParser`).
- `Aggregator`: the reconciler as pure functions, with lemmas about them.
  - `ensureProject` is `Ensure`, one loop iteration is `Step`, a loop is `Fold`, and the response is `Reconcile`.
  - The lemmas prove that ids are listed once, that identity comes from the first row, that images are a maximum, and that each bucket of each project is the sum of the amounts of the rows that carry its id and map to that bucket.
- `Reconciler`: the same fold as imperative code. The `projects` object is a class whose fields the methods update in place. Each method is proved equal to the functions of `Aggregator`.
- `Metrics`, `Partners`, `Query`, `Grouping`, `Charts`, `ProductCosts`: the dashboard.
  - `Grouping.Bucket` and `ProductCosts.TallyProducts` are loops over the projects that build dictionaries, as the source's `forEach` loops do.

Two behaviours of the code worth knowing:

- The partner is stored as read (`sheets.js:120`). No partner alias table exists in the code.
- A date window with only `dateFrom` set keeps projects whose month is "Unknown", because `"Unknown" < "2024-02"` is false (`Query.UnknownKeptByDateFrom`). A window with `dateTo` set excludes them.

## Model

| member | source | states |
|---|---|---|
| Records.RevenueTotals.Add | api/sheets.js:139-141 | `revenue[k] += amount` grows bucket `k` by exactly the amount and leaves the other four buckets alone |
| Records.ExpenseTotals.Add | api/sheets.js:152-154 | the same for the five expense buckets |
| LineItems.RevenueLineItem | api/sheets.js:5-18 | a revenue line item is mapped exactly when its trimmed, lower-cased form is a key of the revenue table |
| LineItems.ExpenseLineItem | api/sheets.js:20-30 | an expense line item is mapped exactly when its normal form is a key of the expense table |
| LineItems.TableKeysNormalized | api/sheets.js:3-30 | every key of both tables is already trimmed and lower case, so each can be reached from some label |
| LineItems.LookupByNormalForm | api/sheets.js:137-138 | looking up a label gives the same bucket as looking up its normal form |
| LineItems.SameKeySameBucket | api/sheets.js:137-138 | two labels with the same normal form land in the same bucket, in both tables |
| LineItems.TravelSpellings | api/sheets.js:137-138 | "travel", "Travel" and " TRAVEL " book to the same bucket |
| LineItems.UnmappedLabel | api/sheets.js:138-139 | an unknown label maps to no bucket in either table, so it books nothing |
| LineItems.RevenueManyToOne | api/sheets.js:6-11 | the revenue labels that book to `additionalDeliverables` are exactly the four listed |
| LineItems.ExpenseBackslashN | api/sheets.js:23-25 | the expense bucket `lastMinuteReschedule` is reached from "last minute reschedule" and from the literal two-character label `\n`, and nothing else |
| Country.NormalizeCountry | api/sheets.js:44-47 | an empty cell stays empty; an unknown spelling becomes its trimmed self |
| Country.KnownSpelling | api/sheets.js:46 | a spelling whose normal form is in the table becomes that table entry |
| Country.NormalizeCountryRange | api/sheets.js:33-47 | the result is always trimmed, and is either a canonical country name or the trimmed input |
| Country.TableValuesCanonical | api/sheets.js:33-43 | every value of the table is one of the nine canonical names |
| Country.CanonicalIsFixed | api/sheets.js:33-43 | each canonical name maps to itself through the table |
| Country.NormalizeCountryIdempotent | api/sheets.js:44-47 | normalising a normalised country changes nothing |
| Country.UsaSpellings | api/sheets.js:34 | "us", " USA " and "United States" all become "USA" |
| Country.UnknownCountry | api/sheets.js:45-46 | "  Narnia " passes through as "Narnia", and an empty cell as "" |
| Text.TrimSpec | api/sheets.js:46 | `trim` removes exactly the leading and trailing whitespace run and leaves a trimmed string |
| Text.TrimIdempotent | api/sheets.js:46 | trimming twice is trimming once |
| Text.TrimToLowerCommute | api/sheets.js:137 | trimming and lower-casing commute |
| Text.NormalizeKeyIdempotent | api/sheets.js:46 | the `trim().toLowerCase()` key of a key is itself |
| Text.StrLessTransitive | src/App.jsx:343-344 | string `<` is a strict order: transitive |
| Text.StrLessTotal | src/App.jsx:343-344 | string `<` orders any two different strings |
| Text.StrLessAsymmetric | src/App.jsx:343-344 | string `<` never holds both ways |
| Text.Split | api/sheets.js:84 | `split("/")` yields one more part than there are slashes, no part holds a slash, and joining the parts gives the input back |
| Text.SplitJoin | api/sheets.js:84-85 | splitting a join of slash-free parts gives the parts back |
| Text.PadStart | api/sheets.js:88 | `padStart(2, "0")` keeps the string as its suffix and fills up to the width with the pad character |
| Text.NatToString | api/sheets.js:88 | the decimal form of a number has no leading zero and reads back as the number |
| Amounts.StripCurrency | api/sheets.js:139-140 | removing `$` and `,` keeps every other character and only those |
| Amounts.StripCurrencyIdempotent | api/sheets.js:140 | stripping twice is stripping once |
| Amounts.ParseAmount | api/sheets.js:139-140 | an empty cell reads as 0; otherwise the amount is the `parseFloat` of the stripped text, or 0 when that is NaN |
| Amounts.ParseImages | api/sheets.js:135-136 | an empty cell reads as the image count 0; otherwise it is `parseFloat` of the cell, NaN included |
| Amounts.ParseFloatNat | api/sheets.js:135 | `parseFloat` of the decimal form of a whole number is that number |
| Amounts.ParseFloatDecimal | api/sheets.js:140 | `parseFloat` of `w.f` followed by a non-digit is the whole part plus the decimal fraction |
| Amounts.ParseFloatNegative | api/sheets.js:140 | a leading minus negates the value and keeps NaN as NaN |
| Amounts.ParseFloatSkipsWhitespace | api/sheets.js:135 | leading whitespace does not change the parsed value |
| Amounts.ParseFloatNaN | api/sheets.js:135-136 | `parseFloat` is NaN exactly when, after whitespace and a sign, no digit (or dot-digit) starts the text |
| Amounts.ParseAmountDollars | api/sheets.js:140 | "$" before a whole number reads as that number |
| Amounts.ParseAmountExample | api/sheets.js:140 | "$1,200.50" reads as 1200.5 |
| Amounts.ParseAmountNoNumber | api/sheets.js:140 | an empty cell and "abc" both read as 0 |
| Amounts.EmptyCellReadsAsZero | api/sheets.js:135-140 | the `|| "0"` fallback parses to 0 both as an image count and as an amount |
| Dates.MonthDigits | api/sheets.js:88 | the month is written as two digits that read back as the month |
| Dates.FormatYearMonth | api/sheets.js:88 | the key ends in `-MM` with the month's two digits, and starts with a digit or a minus sign |
| Dates.FormatDecodes | api/sheets.js:88 | for a four-digit year the key has seven characters and decodes back to the same year and month |
| Dates.KeysChronological | api/sheets.js:88 | for four-digit years, one key is `<` another exactly when its month comes earlier in the calendar |
| Dates.KeyBeforeUnknown | api/sheets.js:124 | every month key sorts before "Unknown", and "Unknown" is never before a key |
| Dates.Reinterpreted | api/sheets.js:84-85 | the day/month/year retry happens exactly when the text has two slashes |
| Dates.ToYearMonth | api/sheets.js:80-89 | an empty date gives no key, and any key it gives has the `-MM` shape |
| Dates.MonthKey | api/sheets.js:124 | a project's month key is never empty |
| Dates.PrimaryParseWins | api/sheets.js:82-88 | a date the primary parse accepts gives that date's key, the fallback unused |
| Dates.FallbackRebuilds | api/sheets.js:83-85 | a failed `A/B/C` is retried as `C-B-A` and gives the key of that parse, or no key when it fails too |
| Dates.NoFallback | api/sheets.js:83-87 | a failed parse without exactly two slashes gives "Unknown" |
| Dates.EmptyCellUnknown | api/sheets.js:81-124 | a missing date gives the month "Unknown" |
| Dates.MonthKeyCases | api/sheets.js:80-124 | a month key is either "Unknown" or the key of some year and month |
| SheetUrl.FindMatch | api/sheets.js:74 | finds the leftmost position at which the pattern matches, or says there is none |
| SheetUrl.IdRunEnd | api/sheets.js:74 | the greedy `[a-zA-Z0-9-_]+` run ends at the first character outside the class |
| SheetUrl.ExtractSheetId | api/sheets.js:73-77 | the only error is "Invalid Google Sheets URL." |
| SheetUrl.ExtractSheetIdCorrect | api/sheets.js:73-77 | it fails exactly when the pattern matches nowhere; otherwise it returns the capture of the leftmost match |
| SheetUrl.ExtractAfterHost | api/sheets.js:74-76 | a URL whose host part has no slash, then `/spreadsheets/d/` and an id, yields that id |
| SheetUrl.RejectsWithoutPath | api/sheets.js:75 | a URL without `/spreadsheets/d/` is rejected |
| JsObjects.OwnKeys | api/sheets.js:158 | the listed keys are a reordering of the assigned keys |
| JsObjects.OwnKeysOrder | api/sheets.js:158 | array-index keys come first in ascending numeric order, then the other keys in insertion order |
| JsObjects.OwnKeysDistinct | api/sheets.js:158 | keys assigned once each are listed once each |
| JsObjects.OwnKeysInsertionOrder | api/sheets.js:158 | with no array-index key, the listing is the insertion order |
| JsObjects.OwnKeysAllIndexes | api/sheets.js:158 | with only array-index keys, the listing is numeric order |
| Aggregator.RowId | api/sheets.js:115 | the id is the first non-empty of the three id headers, or none |
| Aggregator.RowBucket | api/sheets.js:137-151 | the bucket is the looked-up line item of the row's own tab, revenue or expense |
| Aggregator.ReadAll | api/sheets.js:132-145 | one reading per row, in order |
| Aggregator.NewProjectFromRow | api/sheets.js:117-128 | a new project takes partner and product as read, the normalised country, the row's month key, zero images and ten zero buckets |
| Aggregator.RaiseImages | api/sheets.js:135-136 | the image count only grows: it becomes the row's count when that parses and is larger, and is otherwise unchanged |
| Aggregator.BookEffect | api/sheets.js:137-142 | booking a row moves exactly the mapped bucket, by exactly the amount |
| Aggregator.Ensure | api/sheets.js:114-130 | a known id leaves the table unchanged; an unknown one gains a new project and its key is appended to the key order |
| Aggregator.RowWithoutIdSkipped | api/sheets.js:116-134 | a row without an id leaves the table unchanged |
| Aggregator.StepOthers | api/sheets.js:132-143 | a row never changes the project of another id |
| Aggregator.StepIdentity | api/sheets.js:117-128 | a row never changes the identity fields of a project already present |
| Aggregator.StepImages | api/sheets.js:135-136 | after a row, its project's image count is the larger of the old count and the row's parsed count |
| Aggregator.StepBuckets | api/sheets.js:137-142 | after a row, each bucket of its project is the old amount plus the row's amount if it maps there |
| Aggregator.FoldKeys | api/sheets.js:132-156 | after a loop, the ids present are those present before plus those some row carried |
| Aggregator.FoldIgnoresIdless | api/sheets.js:133-134 | dropping the id-less rows does not change what a loop produces |
| Aggregator.FoldKeepsIdentity | api/sheets.js:117 | a loop never changes the identity of a project already present |
| Aggregator.FirstRowFixesIdentity | api/sheets.js:117-128 | a project created in a loop has the identity of the first row carrying its id |
| Aggregator.FoldImages | api/sheets.js:135-136 | a project's image count after a loop is the largest of its count before and the parsed counts of its rows |
| Aggregator.FoldSum | api/sheets.js:137-142 | after a loop, a bucket summed over all projects has grown by the amounts of the rows mapped to it |
| Aggregator.CollectTotals | api/sheets.js:132-156 | a revenue bucket summed over the projects is the sum of the revenue rows booked to it, and the same holds for expense buckets and expense rows |
| Aggregator.ReconcileTotals | api/sheets.js:132-159 | the same, over the listed projects of the response and read from the raw rows of each tab |
| Aggregator.ProjectsListed | api/sheets.js:112-159 | the response lists each project id found in either tab exactly once, and no other |
| Aggregator.TableListed | api/sheets.js:158 | `Object.values` lists every stored project once |
| Aggregator.IdentityFromRevenue | api/sheets.js:117-133 | a project first seen in the revenue tab keeps the identity of its first revenue row |
| Aggregator.IdentityFromExpenses | api/sheets.js:117-146 | a project seen only in the expense tab keeps the identity of its first expense row |
| Aggregator.CollectImages | api/sheets.js:135-149 | a project's image count is the largest of 0 and the parsed counts of all its rows in both tabs, and is 0 or one of them |
| Aggregator.UnseenContributesNothing | api/sheets.js:132-135 | rows of a loop after which an id is still absent add nothing to that id's buckets |
| Aggregator.FoldBucket | api/sheets.js:132-143 | after a loop over one tab, each bucket of a project holds its amount before the loop (0 for a new project) plus the amounts of exactly the loop's rows that carry its id and map to that bucket |
| Aggregator.CollectBucket | api/sheets.js:115-156 | each bucket of each listed project is the sum of the amounts of exactly the rows of either tab that carry its id and map to that bucket |
| Aggregator.StepAsWritten | api/sheets.js:115-141 | as written, an unseen id naming an `Object.prototype` property creates no project, and a mapped line item then throws |
| Aggregator.PrototypeIdAsWritten | api/sheets.js:117-141 | the id "constructor" with a mapped line item fails the request, and without one it is dropped; `Step` stores and books it |
| Reconciler.ProjectTable.constructor | api/sheets.js:112 | the table starts empty |
| Reconciler.ProjectTable.EnsureProject | api/sheets.js:114-130 | returns the row's id, and creates its project in place exactly as `Ensure` says |
| Reconciler.ProjectTable.Apply | api/sheets.js:133-142 | one loop iteration updates the stored project in place, with the result `Step` specifies |
| Reconciler.ProjectTable.AddRow | api/sheets.js:132-156 | reading a row and applying it is one `Step` on the row's reading |
| Reconciler.ProjectTable.AddRows | api/sheets.js:132-156 | the `for` loop over a tab leaves the table `Fold` specifies |
| Reconciler.ReconcileSheets | api/sheets.js:112-159 | returns the projects `Reconcile` specifies, and `count` is their number |
| Metrics.KeysComplete | src/App.jsx:41-42 | `REV_KEYS` and `EXP_KEYS` each list all five buckets once |
| Metrics.TotalRev | src/App.jsx:47 | the revenue total is the sum of the five revenue buckets |
| Metrics.TotalExp | src/App.jsx:46 | the expense total is the sum of the five expense buckets |
| Metrics.Percent | src/App.jsx:51 | 0 when the base is not positive, otherwise the value with `r * base == m * 100` |
| Metrics.PerUnit | src/App.jsx:52-53 | 0 when the count is not positive, otherwise the value with `r * n == x` |
| Metrics.CalcTotals | src/App.jsx:48-54 | margin is revenue minus expenses; the margin percentage and both per-image figures are those ratios, or 0 when the denominator is not positive |
| Metrics.MarginPctRange | src/App.jsx:51 | with positive revenue and expenses between 0 and the revenue, the margin percentage lies in [0, 100] |
| Partners.PartnerGroup | src/App.jsx:13-14 | a named partner is its own group; every other partner is "Other"; the group is always a chart series |
| Partners.ChartPartnersDistinct | src/App.jsx:15 | the chart has five different series |
| Partners.OtherNotNamed | src/App.jsx:13-15 | "Other" is not a named partner |
| Partners.PartnerGroupFixed | src/App.jsx:14-15 | every chart series groups to itself |
| Partners.PartnerGroupIdempotent | src/App.jsx:14 | grouping a group changes nothing |
| Query.KeepMeaning | src/App.jsx:339-346 | a project passes exactly when each selector is "All" or equal to its field, and its month is empty or inside the window, both ends inclusive |
| Query.UnknownExcludedByDateTo | src/App.jsx:344 | a `dateTo` that is a month key rejects the month "Unknown" |
| Query.UnknownKeptByDateFrom | src/App.jsx:343 | a window with only `dateFrom` set lets "Unknown" through |
| Query.EmptyMonthKept | src/App.jsx:343-344 | the window never rejects a project with an empty month |
| Query.WindowIsChronological | src/App.jsx:343-344 | for four-digit years, the string window is the calendar window |
| Query.Filtered | src/App.jsx:339-346 | the result keeps exactly the passing projects, each as often as before, in their original order |
| Query.NoFiltersKeepAll | src/App.jsx:339-346 | with every selector at "All" and no dates, nothing is removed |
| Query.ReduceTotals | src/App.jsx:348-350 | the reduce adds the revenue, expense and image sums of the projects to the seed |
| Query.Headline | src/App.jsx:352-437 | margin is revenue minus expenses; the margin percentage and the per-image cards are those ratios, or 0 when the denominator is not positive |
| Query.DashboardOf | src/App.jsx:339-352 | the headline cards hold the sums over the filtered projects and the filtered count |
| Query.DeleteProject | src/App.jsx:356 | every project with the id goes, the others stay, in their order |
| Query.DeleteAbsent | src/App.jsx:356 | deleting an id no project has changes nothing |
| Query.DeleteIdempotent | src/App.jsx:356 | deleting twice is deleting once |
| Grouping.Bucket | src/App.jsx:252-254 | the `forEach` over the projects builds, for each field value, the projects with that value in order, and lists the values in first-seen order |
| Grouping.Accumulate | src/App.jsx:256 | a group's reduce adds the group's revenue, expenses and images to the seed, and its size to the count |
| Grouping.GroupRow | src/App.jsx:257-258 | a group's margin and its three ratios, each 0 when its denominator is not positive |
| Grouping.Summarize | src/App.jsx:255-258 | a group's row holds the sums over its projects and their number |
| Grouping.EntriesListed | src/App.jsx:255 | `Object.entries` of the bucketed map lists each field value once, with its class |
| Grouping.GroupKeys | src/App.jsx:255-259 | sorting keeps one group per field value, each the summary of exactly the projects with that value |
| Grouping.GroupSums | src/App.jsx:253-259 | the group counts add up to the number of projects, and the group revenues and expenses to their totals |
| Grouping.DescendingRevenue | src/App.jsx:259 | a list sorted by `b.rev - a.rev` has the highest revenue first |
| Grouping.GroupedAnalysis | src/App.jsx:251-260 | one group per field value: the summary of its projects, highest revenue first, with counts, revenues and expenses adding up to the totals |
| Charts.SortStrings | src/App.jsx:95 | a list of distinct strings is sorted into ascending code-unit order, as a reordering |
| Charts.MonthAxis | src/App.jsx:95 | the axis holds the non-empty months of the projects, each once, in ascending order |
| Charts.ChartData | src/App.jsx:96-224 | one row per month of the axis; in it, one value per series: the chart's figure summed over that month's projects of that group |
| Charts.RowTotal | src/App.jsx:97-99 | the series of a month add up to the figure summed over all that month's projects |
| Charts.ChartRowTotal | src/App.jsx:96-101 | each chart row's values add up to the month's total of the chart's figure |
| Charts.RevenueRowTotal | src/App.jsx:99 | in the revenue chart the series of a month add up to its total revenue |
| Charts.MarginCell | src/App.jsx:221-222 | a margin cell is the revenue cell less the expenses of the same projects |
| ProductCosts.TallyProducts | src/App.jsx:127-132 | the `forEach` leaves the count of projects per product, the partner of each product's last project, and the products in first-seen order |
| ProductCosts.TallyStep | src/App.jsx:129-131 | counting one more project bumps its product's count and records its partner |
| ProductCosts.TallyMeaning | src/App.jsx:127-132 | the tally holds exactly the products present; each count is that product's number of projects, and each partner is that of its last project |
| ProductCosts.TopSpec | src/App.jsx:133-134 | the choice has min(products, 10) distinct counted products in descending count order, and none left out counts more than one chosen |
| ProductCosts.TopProductsSpec | src/App.jsx:127-134 | the same for the tally of the projects |
| ProductCosts.ExpenseSplit | src/App.jsx:145-146 | a project's expenses are its core costs (base and additional deliverables) plus its variable costs (the other three) |
| ProductCosts.ProductBar | src/App.jsx:143-149 | a product gets no bar exactly when its image total is 0; a bar carries the product and its recorded partner, or "" |
| ProductCosts.BarCosts | src/App.jsx:145-149 | a bar's two costs times the image total are the product's core and variable expenses, and together its whole expenses |
| ProductCosts.BarsSpec | src/App.jsx:142-150 | each bar is that of one of the chosen products, and each chosen product with a non-zero image total has its bar |
| ProductCosts.ExpensePerImage | src/App.jsx:127-150 | the tally loop, the choice and the bars give the chart's data |
| ProductCosts.ExpensePerImageSpec | src/App.jsx:127-150 | at most ten bars; each is a chosen product with a non-zero image total, labelled with its last project's partner; every such product has its bar |

## Left out

- Fetching the tabs is left out: the Google client, the service-account credentials, CORS, the HTTP method check, reading `sheetUrl` from the request body (`api/sheets.js:100`), the 400 reply "sheetUrl is required" when it is missing or empty (`api/sheets.js:101`), and `Promise.all` (`api/sheets.js:50-70, 92-110`). So are the JSON response and the 500 path of the `catch` (`api/sheets.js:159-164`). The model starts from the trimmed header-to-cell rows and returns the project list.
- The `Date` constructor and `getFullYear`/`getMonth` are a parameter (`Dates.DateParser`). JavaScript's date-string grammar and time zones are not modelled.
- Numbers are exact `real`s, not IEEE doubles. That leaves out rounding in `parseFloat`, `Infinity`, overflow of large exponents, `-0`, NaN in arithmetic, and the rounding of sums and ratios. `Amounts.ParseFloat` models the decimal literal grammar but not "Infinity".
- `Text.ToLower` lower-cases ASCII letters only. The full Unicode case mapping of `toLowerCase` is not modelled. Strings are sequences of Dafny characters rather than UTF-16 code units: `<` agrees with JavaScript on the Basic Multilingual Plane.
- `Metrics.TotalRev`, `Metrics.TotalExp`: the `Number(x) || 0` guards are not modelled, because the buckets are numbers in both sources of projects (the reconciler and the sample data).
- `Charts.ChartData`: the `fmtMonth` label of each row is not modelled; a row carries the month key. The `active` series filter, colours and everything rendered are left out.
- `ProductCosts.ExpensePerImage`: the re-sort of the ten chosen products by partner and then name with `localeCompare` (`src/App.jsx:137-140`) is left out, because `localeCompare` depends on the locale's collation. The bars are in descending count order, and each carries the same data as in the source.
- `ProductCosts.TopSpec`, `ProductCosts.TopProductsSpec`: ties in the count are broken by the tally's key order, as the stable sort does. The contract states the top-ten property, not which of several tied products are chosen.
- The formatters `fmt`, `fmtD`, `fmtP`, `fmtMonth` and `metricColor` are left out, because they only produce display strings.
- The filter `options` lists, `hasFilters`, `defaultDates` (it reads the clock), `SAMPLE_DATA`, `handleImport` and the React state hooks are left out: they are presentation and state kept by the framework.
- `allMonths` (`src/App.jsx:337`) is the same expression as `Charts.MonthAxis` and is not modelled separately.
- `Dates.FormatDecodes`, `Dates.KeysChronological`, `Query.WindowIsChronological`: they need four-digit years, since the string order of keys is the calendar order only then. Years outside 1000-9999 are formatted as `getFullYear` writes them, without padding.
- Prototype property names used as lookup-table keys are left out. A line item or a country spelled like an `Object.prototype` member (for example "constructor") finds the inherited member in `REVENUE_MAP`, `EXPENSE_MAP` or `COUNTRY_MAP`. The model treats such labels as unmapped.
- `Aggregator.Ensure`, `Aggregator.Step`, `Aggregator.Fold`, `Aggregator.Reconcile`, `Reconciler.ProjectTable.EnsureProject`, `Reconciler.ReconcileSheets`: they use the corrected lookup of the Findings row. An id that names an `Object.prototype` property (for example "constructor") gets a project of its own. The code creates none for it: a row with a mapped line item throws and the request ends in the 500 reply, and a row without one is skipped. Only `Aggregator.StepAsWritten` follows the code there.
- `Grouping.Bucket`: the grouping object `map` (`src/App.jsx:254`) is a plain object. A partner, product or country value such as "constructor", "toString" or "__proto__" makes `map[k]||[]` the inherited member, so `.push(p)` throws a TypeError. The model gives every value a group of its own.
- `ProductCosts.TallyProducts`: `productCounts` and `productPartner` (`src/App.jsx:128-132`) are plain objects. For a product named like an `Object.prototype` method the count becomes a string ("function Object() { [native code] }1" for "constructor"), so the comparator `b[1]-a[1]` yields NaN; a product named "__proto__" is never counted. The model counts every product name as an own key.
- `GroupedAnalysis` uses `p[groupBy]` as an object key. The model groups by the string field itself, and array-index-like values are listed as `Object.entries` lists them.
- `vite.config.js` is build configuration and is not part of this model.

## Findings

| source | as written | input that shows it | evidently intended | confidence | as-written member | corrected member |
|---|---|---|---|---|---|---|
| api/sheets.js:117-141 | `if (!projects[id])` tests a plain object: an id naming an inherited property (e.g. "constructor") finds that property, so no project is created and `projects[id].revenue[mappedKey]` throws | a revenue row with Project Id "constructor" and line item "Travel": the request fails with status 500; without a mapped line item the row silently disappears | every id gets its own project, and a row never aborts the batch | not executed; the failure follows from the object lookup rules | Aggregator.StepAsWritten, Aggregator.PrototypeIdAsWritten | Aggregator.Step, with Aggregator.ProjectsListed proved about it |
