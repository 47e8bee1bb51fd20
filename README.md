# Adverse-event dashboard: request pipeline and aggregation

A Dafny model of the data path of a small dashboard for adverse-event reports
from the OpenFDA drug-event search. The user types a drug name and picks a
seriousness filter. The page calls the dashboard's own endpoint, which
validates the request, builds the upstream search expression and URL, and
passes the upstream answer through or replaces it with a fixed error
envelope. The page then counts the reports (total, deaths, hospitalizations),
and the trend chart groups them by year of receipt.

Modules, one per source file plus three shared ones:

- `Wrappers` (wrappers.dfy): `Option`, for JavaScript's `null`/`undefined` and absent fields.
- `AdverseEvents` (adverse_event.dfy): the `Event` record and the JSON `Body` the page reads.
- `RouteHandler` (route.dfy): `GET /api/adverse-events`. The upstream `fetch` and
  `encodeURIComponent` are parameters (`upstream`, `encode`). `encode` returns
  `None` where `encodeURIComponent` throws, which the handler's `try` catches.
- `HomePage` (home_page.dfy): the three counters as recursive `Filter` counts, and the
  `Home` class with the page state and the `fetchData` / `handleSearch` /
  `handleFilterChange` handlers. `Valid()` says the counters on screen always
  describe the events on screen, and every handler keeps it.
  `SearchRoundTrip` follows a request from the page through the endpoint and back.
- `StringOrder` (string_order.dfy): the order of a comparator-less
  `Array.prototype.sort`, proved to be a strict total order. It also holds an
  insertion sort used as the model of `sort()`, and the fact that a strictly
  ascending sequence is determined by its elements.
- `TrendChart` (trend_chart.dfy): the `reduce` that fills the year buckets
  (a loop over a map), the sorted `labels`, the aligned `dataPoints`, and the
  "No data to display" test.

FilterDropdown offers only "All", "Death" and "Hospitalization"
(app/components/FilterDropdown.tsx:24-26). The endpoint accepts any
`seriousness` string, and only the exact values "Death" and "Hospitalization"
add a clause (app/api/adverse-events/route.ts:22-25). The model keeps this
open input.

## Model

| member | source | states |
|---|---|---|
| RouteHandler.QueryParam | app/api/adverse-events/route.ts:7-9 | a value found for a name comes from a pair with that name |
| RouteHandler.QueryParamFirst | app/api/adverse-events/route.ts:7-9 | `get` returns null exactly when no pair has the name, and otherwise the value of the first such pair |
| RouteHandler.TrimStart | app/api/adverse-events/route.ts:11 | the result is a suffix that does not start with whitespace, and everything dropped is whitespace |
| RouteHandler.TrimEnd | app/api/adverse-events/route.ts:11 | the result is a prefix that does not end with whitespace, and everything dropped is whitespace |
| RouteHandler.Trim | app/api/adverse-events/route.ts:11 | the result neither starts nor ends with whitespace, and the input is the result with only whitespace before and after it |
| RouteHandler.TrimEmptyIffAllWhitespace | app/api/adverse-events/route.ts:11 | `trim()` gives "" exactly when every character is ECMAScript whitespace or a line terminator |
| RouteHandler.MissingDrugName | app/api/adverse-events/route.ts:11 | the 400 guard fires exactly for a missing drug name or one made only of whitespace (the empty string included) |
| RouteHandler.FilterOf | app/api/adverse-events/route.ts:22-26 | only the exact strings "Death" and "Hospitalization" select a restriction; absent, "All" and any other value select none |
| RouteHandler.BuildQuery | app/api/adverse-events/route.ts:19-26 | the query starts with `patient.drug.medicinalproduct:"`, the drug name verbatim (not trimmed, not escaped) and a closing quote; then exactly `+seriousnessdeath:1` for "Death", exactly `+seriousnesshospitalization:1` for "Hospitalization", and nothing otherwise |
| RouteHandler.ParseBuildQuery | app/api/adverse-events/route.ts:19-26 | the drug name and the filter can always be read back from the query, so distinct requests never share a search expression |
| RouteHandler.SearchUrl | app/api/adverse-events/route.ts:28 | every upstream URL starts with the OpenFDA base URL and `?search=`, ends with `&limit=100`, and holds the encoded search expression unchanged in between |
| RouteHandler.Forward | app/api/adverse-events/route.ts:30-42 | an ok reply whose JSON parses is passed through unchanged with status 200; a non-ok reply, a network failure or a body that does not parse gives 500 with the fixed OpenFDA error, whatever the upstream status text |
| RouteHandler.Get | app/api/adverse-events/route.ts:6-44 | status is 200, 400 or 500; 400 with "Drug name is required" and no upstream request exactly when the drug name is missing or blank; an upstream request is made exactly when validation passes and encoding succeeds, and it goes to `SearchUrl` of the encoded query; 200 exactly when that request returns ok with a body, which is passed through; 500 always carries the fixed message |
| HomePage.Filter | app/page.tsx:44-45 | `filter` keeps exactly the elements that satisfy the predicate, and never more elements than it was given |
| HomePage.FilterCountsMatching | app/page.tsx:44-45 | `filter(p).length` equals the number of positions whose element satisfies `p` |
| HomePage.FilterCountIgnoresOrder | app/page.tsx:43-45 | reordering the list does not change any `filter(p).length` |
| HomePage.ComputeMetrics | app/page.tsx:43-46 | `total` is the list length; `deaths` and `hospitalizations` count the records whose flag is exactly "1"; both lie between 0 and `total` |
| HomePage.MetricsIgnoreOrder | app/page.tsx:43-46 | two lists with the same records in any order give the same metrics |
| HomePage.ThreeReportExample | app/page.tsx:43-46 | two death reports plus one hospitalization without a death flag give total 3, deaths 2, hospitalizations 1 |
| HomePage.SendsSeriousness | app/page.tsx:30 | the filter is sent exactly when it is not absent, empty or "All"; every filter that restricts the search at the endpoint is sent |
| HomePage.RequestParams | app/page.tsx:28-31 | the request always carries `drugName`; it carries `seriousness` exactly when that is present, non-empty and not "All" |
| HomePage.RequestKeepsFilter | app/page.tsx:28-31 | omitting an absent, empty or "All" filter selects the same restriction at the endpoint as sending it |
| HomePage.Settle | app/page.tsx:36-51 | an ok reply with `results` loads them; an ok reply without `results` leaves the page unchanged; a non-ok reply fails with `data.error`, or "Failed to fetch data" when that is absent or empty; a thrown `Error` fails with its message; any other thrown value fails with "An error occurred" |
| HomePage.ClientView | app/page.tsx:33-37 | `response.ok` holds exactly for a 2xx status; a passed-through body reaches the page unchanged; an error envelope reaches it as `error` with no `results`, and a 400 or 500 envelope with a non-empty message makes the page fail with that message |
| HomePage.SearchRoundTrip | app/page.tsx:27-51 | across the endpoint: a blank drug name shows "Drug name is required" and makes no upstream request; the upstream request carries the page's drug name and filter; any upstream failure shows "Failed to fetch data from OpenFDA"; an upstream success loads its results, or leaves the page as it was when it has none |
| HomePage.Home.constructor | app/page.tsx:17-21 | empty events, zero metrics, not loading, no error, no current drug |
| HomePage.Home.FetchData | app/page.tsx:23-55 | sends `RequestParams`; on success `events` becomes exactly the results and the metrics are theirs; on failure `events` is empty, the metrics are zero and `error` holds the message; an ok reply without results keeps `events` and the metrics; `error` is cleared on every path except failure; `isLoading` ends false; the metrics always match the events |
| HomePage.Home.HandleSearch | app/page.tsx:57-60 | records the drug as `currentDrug`, then fetches it without a filter |
| HomePage.Home.HandleFilterChange | app/page.tsx:62-66 | with no current drug (or an empty one), nothing changes and nothing is sent; otherwise refetches the current drug with the new filter |
| HomePage.SearchThenFilter | app/page.tsx:57-66 | after a search for a non-empty drug name, a filter change sends that drug with that filter |
| StringOrder.Less | app/components/TrendChart.tsx:40 | a proper prefix comes before the longer string, and no string comes before one of its own prefixes |
| StringOrder.LessAtFirstDifference | app/components/TrendChart.tsx:40 | where two strings first differ, the one with the smaller character comes first |
| StringOrder.LessTransitive | app/components/TrendChart.tsx:40 | the default sort order is transitive |
| StringOrder.LessTotal | app/components/TrendChart.tsx:40 | any two different strings are ordered one way or the other |
| StringOrder.LessAsymmetric | app/components/TrendChart.tsx:40 | no two strings are each below the other |
| StringOrder.Insert | app/components/TrendChart.tsx:40 | inserting into a strictly ascending list keeps it strictly ascending and adds exactly that element |
| StringOrder.SortKeys | app/components/TrendChart.tsx:40 | `sort()` of distinct keys gives the same keys, strictly ascending |
| StringOrder.SortedUnique | app/components/TrendChart.tsx:40 | two strictly ascending lists with the same elements are equal, so the labels do not depend on the order `Object.keys` lists the buckets in |
| TrendChart.YearOf | app/components/TrendChart.tsx:35 | the bucket key is the prefix of `receivedate` of length min(4, length) |
| TrendChart.YearsObserved | app/components/TrendChart.tsx:34-38 | the observed keys are exactly the keys of the events |
| TrendChart.CountYearPositive | app/components/TrendChart.tsx:34-38 | a key has a non-zero count exactly when some event falls in it |
| TrendChart.BucketByYear | app/components/TrendChart.tsx:34-38 | the buckets are exactly the observed keys, and each bucket's count is the number of events with that key |
| TrendChart.BucketStep | app/components/TrendChart.tsx:36 | adding one to the bucket of event i, starting a new bucket at 0, turns the correct buckets for the first i events into the correct buckets for the first i + 1 |
| TrendChart.Counts | app/components/TrendChart.tsx:41 | the series has one count per label, in label order |
| TrendChart.CountsAddUp | app/components/TrendChart.tsx:34-41 | the counts of distinct labels covering every observed key add up to the number of events |
| TrendChart.Listed | app/components/TrendChart.tsx:77 | a present list is charted as it is and an absent one as empty; the result is empty exactly when `!events?.length` holds |
| TrendChart.ChartSeries | app/components/TrendChart.tsx:34-83 | `labels` are the observed keys once each, strictly ascending, with no filled-in years; `dataPoints` has the same length, and entry i is the (non-zero) count of label i; the counts add up to the number of events; the "No data to display" branch is taken exactly when the list is absent or empty, and then `labels` is empty |
| TrendChart.TwoYearExample | app/components/TrendChart.tsx:34-41 | report dates 20210304, 20210101 and 20220101 chart as ["2021", "2022"] with counts [2, 1] |

## Left out

- The network and the framework: `fetch`, `response.json()`, `NextResponse` and `console.error` are not modelled. The upstream answer and the page's reply are input values (`Upstream`, `Reply`), and the error log has no effect on the response.
- `encodeURIComponent` is an uninterpreted parameter. It may fail, which stands for the `URIError` on a lone surrogate. That failure path cannot be reached through the endpoint: query parameter values read from a URL never hold a lone surrogate, and neither can a Dafny `string`. The contracts of `RouteHandler.Get` hold for every `encode`, including one that fails. The `URLSearchParams` serialisation between page and endpoint is taken to be lossless, so the endpoint reads the pairs the page sent.
- The stale-response race between overlapping `fetchData` calls is not modelled. Each handler is one atomic step, so the loading state during the await is not observable in the model; only its final value `false` is stated.
- Presentation is not modelled: SearchBar, FilterDropdown, MetricsDisplay, the Chart.js registration and options, and the rendering. SearchBar's `trim()` guard is the same test as `RouteHandler.MissingDrugName`.
- The life-threatening, serious-non-death/hospitalization and by-sex metrics are declared in app/components/MetricsDisplay.tsx but never computed, so they are not modelled.
- Characters are Unicode scalar values compared by code point. JavaScript's `slice(0, 4)` and `sort()` work on UTF-16 code units. The two agree on text in the Basic Multilingual Plane, which includes every date string.
- Only `receivedate` and the two seriousness flags of a record are modelled; other fields pass through untouched. A flag that holds a non-string value is represented as absent, which is equivalent because neither equals "1".
- A record without `receivedate` would make the chart's `reduce` throw. `receivedate` is a string in the model, so that crash is not modelled.
- `data.results` is modelled as a list or absent, and `data.error` as a string or absent. A non-array `results`, a non-string `error` and a `null` body are not modelled.
- `HomePage.Home.FetchData`, `HandleSearch` and `HandleFilterChange`: their contracts describe the final state of one atomic call. They do not describe the intermediate render with `isLoading` true and `error` cleared.
