# performance_report, the data core in Dafny

performance_report is a React dashboard for a mobile-lending business. It shows
loans disbursed and recovered per day, per telco and per loan product, together
with non-performing-loan (NPL) tables. Its data core does the following:

- reads CSV exports and normalises their columns into one record shape (`src/hooks/useFetch.tsx`);
- talks to a REST backend: it maps routes and files to endpoints and query
  strings, and turns the JSON replies into rows (`src/hooks/useFetchFromAPI.tsx`);
- filters the records by business rules and rolls them up per date, then
  projects the daily totals into revenue, NPL and chart series (`src/utils/dataAggregation.tsx`);
- reads the NPL report CSV and the NPL API rows into a per-product table and an
  arrears-by-age table (`src/hooks/useFetchNPLData.tsx`, `src/hooks/useFetchFromAPI.tsx`);
- computes monthly and weekly return rates on the home page (`src/App.tsx`);
- keeps the state of the date-range picker (`src/components/DateRangePicker.tsx`);
- cross-checks the roll-up in a development panel (`src/components/DataDebugger.tsx`).

The model has one module per concern:

| module | file | models |
|---|---|---|
| `JsText`, `JsValues` | js_text.dfy, js_values.dfy | JavaScript's string operations, `parseInt`/`parseFloat`/`String(n)`, and values with their truthiness and `x \|\| d` defaults |
| `Grouping` | grouping.dfy | group-by-key in order of first occurrence, with the partition laws |
| `Records` | records.dfy | the per-segment record and the per-day totals |
| `CsvNormaliser` | csv_normaliser.dfy | `sanitizeColumns` of `useFetch` |
| `Aggregation`, `Projections` | aggregation.dfy, projections.dfy | `filterValidTransactions`, `aggregateDataByDate` and the three projections |
| `ApiClient` | api_client.dfy | endpoint selection, query strings and reply dispatch of `useFetchFromAPI`, and the `useFetch`/`useFetchLoanData` wrappers |
| `ApiNplViews` | npl_api_views.dfy | `loanTypeData` and `arrearsOverTimeData` of `useFetchNPLData` |
| `NplCsv` | npl_csv.dfy | `sanitizeColumns` of the NPL report CSV |
| `ReturnRates` | return_rates.dfy | `calculateReturnRates` and the inline revenue/NPL series of App |
| `DatePicker` | date_range_picker.dfy | the picker component as a class |
| `DataDebugger` | data_debugger.dfy | the reductions of the debug panel |

The clock, the date parser, date-fns' calendar functions and the HTTP reply are
parameters. Code that loops and updates accumulators in place is written as
methods with loops, each proved equal to a specification function:
- the key loop and the row loop of `sanitizeColumns`;
- the roll-up `reduce`;
- the query builder;
- the arrears fallback `forEach`;
- `calculateReturnRates`;
- the debug tallies.

The picker, whose state the component updates through setters, is a class.

## Model

| member | source | states |
|---|---|---|
| CsvNormaliser.NormalizeKeyIsNormal | src/hooks/useFetch.tsx:53 | a normalised column name has no white space, hyphen or capital, and no two underscores in a row |
| CsvNormaliser.NormalizeKeyIdempotent | src/hooks/useFetch.tsx:53 | normalising a normalised name changes nothing |
| CsvNormaliser.NormalizedRowAt | src/hooks/useFetch.tsx:52-55 | a normalised name is present exactly when some column normalises to it, and it holds the cell of the last such column |
| CsvNormaliser.NormalizeRow | src/hooks/useFetch.tsx:52-55 | the key loop builds exactly the normalised row |
| CsvNormaliser.SanitizeColumns | src/hooks/useFetch.tsx:45-128 | one record per row, in order, every row read in the layout the headers announce (the amounts' comma-stripping value rule is stated by GroupedAmount, NonNumericReadsAsZero and SanitizedGrossLentGrouped) |
| CsvNormaliser.NewFormatShape | src/hooks/useFetch.tsx:59-93 | a new-layout record has telco and country, no loan type, no denomination, no active base |
| CsvNormaliser.LegacyShape | src/hooks/useFetch.tsx:97-123 | a legacy record has telco and country, no loan type or denomination, an active base, and zeros for the new-layout fields |
| CsvNormaliser.CsvRecordFilter | src/utils/dataAggregation.tsx:37-70 | for CSV records only the telco rule and the positive-amount rule can reject |
| CsvNormaliser.TelcoCountrySplits | src/hooks/useFetch.tsx:99-100 | "Telco Country" with one space splits into telco and country |
| CsvNormaliser.TelcoCountryNoSpace | src/hooks/useFetch.tsx:99-100 | a text without a space is all telco and no country |
| CsvNormaliser.GroupedAmount | src/hooks/useFetch.tsx:64-117 | an amount written with thousands separators reads, under either parse, as the number its digits spell |
| CsvNormaliser.ThousandsSeparated | src/hooks/useFetch.tsx:64-117 | "12,345" reads as 12345 under either parse |
| CsvNormaliser.NonNumericReadsAsZero | src/hooks/useFetch.tsx:64-117 | text that does not start like a number (no digit, sign, point, comma or white space first) reads as 0 |
| CsvNormaliser.LettersReadAsZero | src/hooks/useFetch.tsx:64-117 | "abc" reads as 0 under either parse |
| CsvNormaliser.SanitizedGrossLentGrouped | src/hooks/useFetch.tsx:64-117 | in the returned records, a comma-grouped gross-lent cell is the number its digits spell, in either layout |
| CsvNormaliser.WholeAmountsAgree | src/hooks/useFetch.tsx:72-104 | the legacy integer parse and the new decimal parse agree on every whole number cell |
| Aggregation.FilterValidSpec | src/utils/dataAggregation.tsx:37-71 | the filter keeps exactly the valid rows and no other |
| Aggregation.FilterAppend | src/utils/dataAggregation.tsx:37-71 | the filter works row by row, so the kept rows keep their relative order |
| Aggregation.DayOfFlow | src/utils/dataAggregation.tsx:114-132 | each flow of a day is the sum of that flow over the day's rows |
| Aggregation.DayOfPopulation | src/utils/dataAggregation.tsx:134-137 | each user count of a day is the running maximum, from 0, over the day's rows |
| Aggregation.AggregateByDate | src/utils/dataAggregation.tsx:77-145 | the reduce and the sort give the sorted groups of the valid rows |
| Aggregation.AggregatedMember | src/utils/dataAggregation.tsx:80-142 | a record is in the output exactly when it is the totals of a date of the valid rows |
| Aggregation.AggregatedDistinct | src/utils/dataAggregation.tsx:80-144 | one record per date, and no more records than valid rows |
| Aggregation.AggregatedCovers | src/utils/dataAggregation.tsx:80-144 | the output dates are exactly the dates of the valid rows |
| Aggregation.AggregatedSorted | src/utils/dataAggregation.tsx:144 | the output is in date order, when every date parses |
| Aggregation.SortSorted | src/utils/dataAggregation.tsx:144 | the stable insertion sort sorts |
| Aggregation.AggregatedDay | src/utils/dataAggregation.tsx:114-139 | per day: flows are sums, user counts are at least every row's and non-negative, the count is positive |
| Aggregation.AggregatedConserves | src/utils/dataAggregation.tsx:77-145 | every flow summed over the output equals its sum over the valid rows; the counts add up to the number of valid rows |
| Aggregation.AggregatedGrossPositive | src/utils/dataAggregation.tsx:52-55 | every output day has positive gross lent |
| Aggregation.AggregatedEmpty | src/utils/dataAggregation.tsx:77-145 | the output is empty exactly when no row is valid |
| Projections.RevenueData | src/utils/dataAggregation.tsx:150-159 | one revenue point per day, in the same order and with the same date, whose value is that day's four recovered fees |
| Projections.NplData | src/utils/dataAggregation.tsx:164-169 | one NPL point per day, in the same order and with the same date, whose value is that day's gross lent minus gross recovered |
| Projections.ChartData | src/utils/dataAggregation.tsx:174-197 | one chart row per day with the day's values under the display names |
| Projections.RevenueConserved | src/utils/dataAggregation.tsx:150-159 | the revenue series adds up to the revenue of all valid rows |
| Projections.NplConserved | src/utils/dataAggregation.tsx:164-169 | the NPL series adds up to everything lent less everything recovered over the valid rows |
| ApiClient.MapLoanTypeFromRoute | src/hooks/useFetchFromAPI.tsx:47-59 | a route maps to a type exactly when its last path part, without ".csv", is one of the table's five own keys; the type is one of 7, 14, 21, 30, all |
| ApiClient.RouteOfCsvPath | src/hooks/useFetchFromAPI.tsx:47-59 | `dir/Name.csv` maps to the table entry for Name |
| ApiClient.DataNewFileHasNoRouteType | src/hooks/useFetchFromAPI.tsx:47-59 | a `DataNew*.csv` file maps to no loan type |
| ApiClient.BuildQueryParams | src/hooks/useFetchFromAPI.tsx:62-82 | the sequential appends build the query of the options |
| ApiClient.QueryParamsSpec | src/hooks/useFetchFromAPI.tsx:62-82 | each parameter is present exactly when its option is truthy; loan type "all" is dropped |
| ApiClient.QueryParamsOrdered | src/hooks/useFetchFromAPI.tsx:62-82 | at most five parameters, in the order of the appends |
| ApiClient.GetApiEndpoint | src/hooks/useFetchFromAPI.tsx:85-113 | tests in order: a "DataNew" source goes to `/loan-data/{type}` for a route type other than "all", else `/loan-data`; then "npl-tables" to `/npl-tables`; then "npl" or "NPL" to `/npl-data` with no query; anything else to `/loan-data`; every endpoint but `/npl-data` carries the options' query |
| ApiClient.DataNewFileEndpoint | src/hooks/useFetchFromAPI.tsx:87-99 | a `DataNew*.csv` file reaches `/loan-data` with the options' query |
| ApiClient.NplDataIgnoresOptions | src/hooks/useFetchFromAPI.tsx:241-258 | `useFetchNPLData` reaches `/npl-data` with no query, whatever its options |
| ApiClient.GetLoanTypeFromPath | src/hooks/useFetchFromAPI.tsx:205-212 | the first tag found in the order DataNew7, DataNew14, DataNew21, DataNew30, DataNew.csv gives 7, 14, 21, 30 or all; no type exactly when none of the five tags occurs |
| ApiClient.DataNewFileLoanType | src/hooks/useFetchFromAPI.tsx:205-212 | each legacy file `dir/DataNew{7,14,21,30}.csv` yields its own type and `dir/DataNew.csv` yields all |
| ApiClient.CompatEndpoint | src/hooks/useFetchFromAPI.tsx:203-222 | `useFetch` on a `DataNew*.csv` file queries `/loan-data` with telco both, 30 days, and the file's loan type unless "all" |
| ApiClient.LoanDataOptions | src/hooks/useFetchFromAPI.tsx:232-238 | the caller's options win; telco defaults to both and days to 7 |
| ApiClient.LoanDataEndpoint | src/hooks/useFetchFromAPI.tsx:232-238 | `useFetchLoanData` queries `/loan-data` with the defaulted options |
| ApiClient.NplRow | src/hooks/useFetchFromAPI.tsx:140-177 | an NPL row has exactly the record's keys, each with its value |
| ApiClient.NplRowFlowsZero | src/hooks/useFetchFromAPI.tsx:140-177 | the flows NPL rows lack are 0 |
| ApiClient.NplRowCarried | src/hooks/useFetchFromAPI.tsx:140-177 | the carried fields are the item's values, or 0 when falsy |
| ApiClient.NplRowIdentity | src/hooks/useFetchFromAPI.tsx:140-177 | telco Airtel, country Zambia, fx rate 1, date and loan type from the item or empty |
| ApiClient.DispatchSpec | src/hooks/useFetchFromAPI.tsx:126-190 | the reply fails exactly on a network error, HTTP error, bad JSON, null body or non-array NPL data; `data` passes through; NPL rows are rewritten one to one |
| ApiNplViews.LoanTypeDataSpec | src/hooks/useFetchFromAPI.tsx:267-312 | always the four products in order; each reads its first row, or is zero without one |
| ApiNplViews.FindGrandTotal | src/hooks/useFetchFromAPI.tsx:320-327 | the first row that passes the total test, unless an earlier row makes the test throw; none exactly when every row fails the test; a throw exactly when some row's test throws after every earlier row failed |
| ApiNplViews.SumArrears | src/hooks/useFetchFromAPI.tsx:346-369 | the `forEach` computes the eight fallback sums |
| ApiNplViews.ArrearsOverTimeData | src/hooks/useFetchFromAPI.tsx:314-393 | the method returns the arrears view |
| ApiNplViews.ArrearsShape | src/hooks/useFetchFromAPI.tsx:314-393 | eight buckets, named in order |
| ApiNplViews.ArrearsFromGrandTotal | src/hooks/useFetchFromAPI.tsx:328-341 | with a total row the amounts are that row's bucket cells |
| ApiNplViews.ArrearsThrows | src/hooks/useFetchFromAPI.tsx:320-327 | the view throws exactly when the total search throws |
| ApiNplViews.FallbackTotalTestIsDead | src/hooks/useFetchFromAPI.tsx:357-368 | without a total row the fallback's "total" test never excludes a row |
| ApiNplViews.ArrearsFallback | src/hooks/useFetchFromAPI.tsx:346-381 | without a total row each amount is the sum of that bucket over the counted rows |
| NplCsv.KeysWithRowMembers | src/hooks/useFetchNPLData.tsx:28-36 | a product is listed exactly when it is one of the keys and some row bears its label |
| NplCsv.KeysWithRowOrder | src/hooks/useFetchNPLData.tsx:28-36 | the listed products keep the keys' order: listing the keys `a + b` lists those of `a`, then those of `b` |
| NplCsv.LineOfKey | src/hooks/useFetchNPLData.tsx:29-35 | nothing for a product without a row; otherwise the line read from its first row, or a throw exactly when that row cannot be read |
| NplCsv.LoanLinesSpec | src/hooks/useFetchNPLData.tsx:28-36 | one line per product with a row, in order, each read from that row; a throw exactly when some product's row cannot be read |
| NplCsv.EntriesOfSpec | src/hooks/useFetchNPLData.tsx:38-44 | eight entries named by column, each the parsed cell; throws exactly when a cell cannot be read |
| NplCsv.ArrearsDataSpec | src/hooks/useFetchNPLData.tsx:38-44 | no total row gives an empty list; otherwise the eight buckets in order |
| NplCsv.SanitizeColumns | src/hooks/useFetchNPLData.tsx:9-47 | a throw in the loan-type table throws the whole result before the arrears are read; otherwise both tables, or a throw when the arrears throw |
| NplCsv.SanitizeColumnsAsText | src/hooks/useFetchNPLData.tsx:9-47 | read through `String(cell)`, the result always has one line per product with a row and 8 or 0 arrears entries |
| NplCsv.WholeAmountOfIntToString | src/hooks/useFetchNPLData.tsx:32-33 | an amount written as digits parses back to its value |
| NplCsv.PercentageOfIntToString | src/hooks/useFetchNPLData.tsx:34 | "n%" parses to n |
| NplCsv.NumericBalanceThrows | src/hooks/useFetchNPLData.tsx:32 | a numeric balance cell in the first product's row makes the table, and so the whole result, throw |
| NplCsv.AsTextReadsNumbers | src/hooks/useFetchNPLData.tsx:32 | read through `String(cell)`, a numeric balance reads as its value |
| NplCsv.AsTextNeverThrows | src/hooks/useFetchNPLData.tsx:28-44 | read through `String(cell)`, neither table ever throws |
| ReturnRates.WeekOfMonthSpec | src/App.tsx:103 | the week index is ceil(day / 7), from 1 to 5 |
| ReturnRates.WeekKeyIgnoresMonth | src/App.tsx:103 | the week key has no month: same year and week index give the same key |
| ReturnRates.TotalSpec | src/App.tsx:113-117 | a group total is NaN exactly when a member's amount is, otherwise the sum |
| ReturnRates.RateBounds | src/App.tsx:120-128 | NaN or zero gross lent gives rate 0; recovering no more than lent gives a rate from 0 to 100 |
| ReturnRates.ReturnRatesSpec | src/App.tsx:96-132 | one rate per distinct period, in order of first occurrence, each from exactly that period's entries |
| ReturnRates.CalculateReturnRates | src/App.tsx:96-132 | the loop yields the monthly and the weekly rates |
| ReturnRates.SeriesSpec | src/App.tsx:84-92 | one point per entry with its date; revenue and NPL are NaN when an operand is |
| ReturnRates.AppEntryIsBlank | src/App.tsx:101-117 | App's display names read nothing from a loaded record |
| ReturnRates.AppRatesCollapse | src/App.tsx:96-132 | as written, all rows collapse into one "NaN-NaN" month and one "NaN-WNaN" week, each with rate 0 |
| ReturnRates.RecordEntryReadsFields | src/hooks/useFetch.tsx:59-124 | read through the record's own names, an entry carries the record's date and amounts |
| ReturnRates.RecordGroupsAddUp | src/App.tsx:96-132 | corrected: no group total is NaN, and the groups' gross lent adds up to the total |
| DatePicker.Presets | src/components/DateRangePicker.tsx:27-53 | "Last N days" is (now − N days, now) for 7, 30, 90; the month presets use the calendar functions |
| DatePicker.InitialRange | src/components/DateRangePicker.tsx:16-24 | the given bounds, each defaulting to the last 30 days |
| DatePicker.DefaultIsLast30Days | src/components/DateRangePicker.tsx:18-19 | without props the initial range equals the "Last 30 days" preset |
| DatePicker.Clamped | src/components/DateRangePicker.tsx:68-81 | start <= end afterwards; the edited bound takes the value; the other moves only if the range would invert |
| DatePicker.DateRangePicker.constructor | src/components/DateRangePicker.tsx:21-25 | the initial range with the dropdown closed and nothing notified |
| DatePicker.DateRangePicker.ToggleDropdown | src/components/DateRangePicker.tsx:94 | the dropdown flips; nothing else changes |
| DatePicker.DateRangePicker.CloseDropdown | src/components/DateRangePicker.tsx:156 | the dropdown closes; nothing else changes |
| DatePicker.DateRangePicker.HandlePresetSelect | src/components/DateRangePicker.tsx:55-66 | the range becomes the preset's; the callback gets exactly that range; the dropdown closes |
| DatePicker.DateRangePicker.HandleCustomDateChange | src/components/DateRangePicker.tsx:68-88 | corrected: a valid date is stored clamped and reported; an invalid date changes nothing |
| DatePicker.AsWrittenOnValidDates | src/components/DateRangePicker.tsx:68-88 | on valid dates the code as written and the clamp agree |
| DatePicker.ClearedInputIsStored | src/components/DateRangePicker.tsx:68-88 | as written, a cleared start is stored as an Invalid Date, the range is unordered, nothing is reported, and a later end edit does not repair it |
| DataDebugger.Take | src/components/DataDebugger.tsx:21-22 | the first min(n, length) elements |
| DataDebugger.OrUnknown | src/components/DataDebugger.tsx:59-69 | a missing or empty key becomes "Unknown" |
| DataDebugger.Tallies | src/components/DataDebugger.tsx:29-38 | the reduce builds one slot per key with the count and sums of exactly that key's rows |
| DataDebugger.BreakdownAddsUp | src/components/DataDebugger.tsx:59-75 | slot counts add up to the number of rows and slot gross lent to the total |
| DataDebugger.BreakdownSlots | src/components/DataDebugger.tsx:59-75 | every row has a slot, and every slot has a row |
| DataDebugger.SumRawTotals | src/components/DataDebugger.tsx:41-56 | each raw total is the sum of its field over the rows |
| DataDebugger.Aug6RowsSpec | src/components/DataDebugger.tsx:26 | the 2025-08-06 rows are exactly the rows of that date |
| DataDebugger.Aug6Found | src/components/DataDebugger.tsx:25 | the aggregated day is found exactly when a valid row has that date |
| DataDebugger.Aug6Flows | src/components/DataDebugger.tsx:25 | the found day's flows are the sums over the valid rows of that date |
| DataDebugger.Aug6MatchesRawTotals | src/components/DataDebugger.tsx:25-56 | when all rows of that date are valid, the found day agrees with the raw totals |
| DataDebugger.Render | src/components/DataDebugger.tsx:16-75 | nothing outside development; otherwise the samples, the day's rows, the found day, the breakdowns and the totals |

## Left out

- Transport: `fetch`, stream reading, text decoding, BOM stripping, Papa Parse's delimiter sniffing and type guessing. A parsed CSV arrives as rows of cells plus a header list.
- React state, effects, loading flags and logging. Fetch results are not ordered against each other.
- `API_BASE_URL` and URL percent-encoding. An endpoint is a path plus the list of query pairs.
- `new Date()` is a parameter. Each preset reads the clock separately; the model uses one instant for all of them.
- `subDays` counts whole 24-hour days, with no daylight-saving shift.
- date-fns' `format`, `startOfMonth`, `endOfMonth` and `subMonths` are parameters. The picker's callback is modelled as receiving the range it formats.
- Date parsing for the sort and for the return rates is a parameter.
- Aggregation.AggregatedSorted assumes every date parses: the sort key `dateKey` gives an integer for every date. At src/utils/dataAggregation.tsx:144, a missing or unparsable date makes the comparator return NaN, which `sort` reads as 0. The comparator is then inconsistent and the order depends on the engine.
- Aggregation.LoanTypeAllowed assumes a row's loan type and telco are strings or absent. A truthy non-string value would make `toLowerCase` throw at src/utils/dataAggregation.tsx:40 and :46.
- DataDebugger.BreakdownKey assumes a row's loan type is a string or absent. A `null` loan type renders as "null" in the key at src/components/DataDebugger.tsx:30; the model writes "undefined" for every missing value.
- ApiClient.MapLoanTypeFromRoute looks up only the five own keys of the route table. At src/hooks/useFetchFromAPI.tsx:48-58 the object lookup also finds names inherited from `Object.prototype`, such as "toString", and returns a function. Building the endpoint then puts the function's text into the path.
- Aggregation.AggregateByDate starts each date's slot empty. At src/utils/dataAggregation.tsx:82, a date such as "constructor" finds an inherited, truthy slot in `acc`.
- DataDebugger.Tallies starts each breakdown slot empty. At src/components/DataDebugger.tsx:31, :61 and :71, a key such as "constructor" finds an inherited, truthy slot in `acc`.
- JsText.Lower lowercases ASCII letters only, while `toLowerCase` follows Unicode. None of the names or tests the core reads changes under the difference.
- `parseFloat` results of `Infinity` are treated as unparsable.
- ApiNplViews.SummaryOf reads a string-valued amount as 0 (NumOrZero). JavaScript's `x || 0` would keep the string.
- ApiNplViews.ArrearsFromGrandTotal reads a string-valued bucket cell of the total row as 0 (NumOrZero). At src/hooks/useFetchFromAPI.tsx:330-337, `x || 0` would keep the string.
- ApiNplViews.ArrearsFallback adds a string-valued bucket cell as 0 (NumOrZero). At src/hooks/useFetchFromAPI.tsx:359-366, `+=` would concatenate it and turn the running sum into a string.
- ReturnRates.AmountOf treats every amount that is not a number as NaN. JavaScript's `+=` would concatenate a string, and would coerce `null` to 0 and a boolean to 0 or 1. Only the missing (`undefined`) case arises for loaded records, whose amounts are numbers.
- ApiClient.LoanDataOptions treats an option passed explicitly as `undefined` as absent. JavaScript's spread would let it override the default.
- The fallback of `arrearsOverTimeData` throws when a row's `loan_type` is a truthy non-string. ApiNplViews.FallbackTotalTestIsDead shows that this branch is never reached.
- The debug panel's `knownAccurateData` is only displayed. Its breakdown slots carry all four sums; each breakdown renders a subset.
- Object key order: slots are maps, and groups are listed in order of first occurrence.
- Render order is not modelled. The effect at src/App.tsx:70-80 is declared before the login check at :82. It calls `calculateReturnRates`, a `const` declared only after that check (:96). The revenue and NPL series (:84-92) are built after the check. ReturnRates computes the rates and series directly from the entries.
- `useFetchNPLData` builds its own date query. That query never reaches the endpoint (ApiClient.NplDataIgnoresOptions).

## Findings

| source | as written | input that shows it | evidently intended | confidence | as-written member | corrected member |
|---|---|---|---|---|---|---|
| src/App.tsx:96-132 | reads `entry.Date`, `entry["Gross Lent"]` and the other display names from the records of `useFetch("/Data.csv")`, whose keys are `date`, `gross_lent`, … | any non-empty CSV | group by the record's date and sum its amounts | not executed | ReturnRates.AppRatesCollapse | ReturnRates.RecordGroupsAddUp |
| src/components/DateRangePicker.tsx:68-88 | stores `new Date(value)` even when the input was cleared (`value == ""`, Invalid Date); the clamp comparisons are false and `format` then throws | clear the start date input | ignore an unparsable value and keep start <= end | not executed | DatePicker.ClearedInputIsStored | DatePicker.DateRangePicker.HandleCustomDateChange |
| src/hooks/useFetchNPLData.tsx:32-34 | calls `.replace` on cells that Papa Parse's `dynamicTyping` (line 63) has turned into numbers | a "7 Days Loan" row whose balance is written without separators, e.g. 5000 | read the cell's text, `String(cell)` | not executed | NplCsv.NumericBalanceThrows | NplCsv.AsTextNeverThrows |
