# Reports page data core, modelled in Dafny

The reports page of this CRM loads its data in two steps. First it pulls every row of a
Supabase table in 1000-row pages (`getAllRecordsWithPagination` in
`app/utils/pagination.ts`). Then the route loader (`loader` in
`app/routes/reportes/index.tsx`) builds the page's data from those rows:

- the filter options;
- report 1: performance per agent, and a public/private pie chart;
- report 2: effectiveness per report tag;
- an analysis of which leads came from Facebook Ads;
- and, if anything throws, an empty fallback report.

The project models both steps and proves what they promise.

| file | module | what it holds |
|---|---|---|
| `wrappers.dfy` | `Wrappers` | `Option` |
| `js_values.dfy` | `JsValues` | JavaScript scalar values; the filled test (not `null`, not `undefined`, not an empty string) |
| `pagination.dfy` | `Pagination` | request windows; filter choice; the fetch loop and its three wrappers; what a fetch returns; the finite-table backend |
| `records.dfy` | `Records` | the agent/tag row; the assignee and tag tests; display names; tag counts |
| `dedup.dfy` | `Dedup` | `[...new Set(xs)]` on values: first occurrences, in order |
| `filtering.dfy` | `Filtering` | `xs.filter(keep)` characterised by its result: a subsequence holding every occurrence of each kept value and nothing else |
| `rounding.dfy` | `Rounding` | the zero-guarded `Math.round(part / total * 100)` in exact arithmetic |
| `report_options.dfy` | `ReportOptions` | channel to table; unique agents; unique tags |
| `agent_report.dfy` | `AgentReport` | the `agentStats` reduce; the performance table; column totals; the pie chart |
| `tag_report.dfy` | `TagReport` | `tagEffectiveness` |
| `lead_report.dfy` | `LeadReport` | lead-source classification and its summary |
| `report_loader.dfy` | `ReportLoader` | the loader: fetch, assemble, fall back; the report with the tag options as intended |

**The backend.** It is a page source: a function from a request (table, columns, filter,
window) to `Failed`, `NoData` or `Rows(rows)`. The fetch method is proved against this
abstract backend. It is then instantiated with `TableSource(table)`, which slices a finite
sequence by window; against that backend the fetch returns the whole table.

**The lookup.** The email-to-name lookup is an abstract function `Option<string> -> string`.

**Imperative parts.** These are methods with loop invariants, each proved equal to a
specification function:

- the fetch loop;
- the `agentStats` reduce and its callback;
- the lead `forEach`.

Everything else is a function.

## Model

| member | source | states |
|---|---|---|
| Pagination.WindowOf | app/utils/pagination.ts:29-30 | page `p` asks for `range(1000p, 1000p + 999)`; its properties are stated by the three window lemmas below |
| Pagination.WindowsAreContiguous | app/utils/pagination.ts:23-30 | page `p` asks for the inclusive window `[1000p, 1000p + 999]`; it is 1000 rows wide and the next window starts right after it |
| Pagination.WindowOwner | app/utils/pagination.ts:30 | row `n` lies in the window of page `p` exactly when `p == n / 1000` |
| Pagination.WindowsAreDisjoint | app/utils/pagination.ts:30 | no row lies in the windows of two different pages |
| Pagination.ChooseFilter | app/utils/pagination.ts:33-39 | operator `'not'` with value `null` gives the not-null filter on the column; otherwise a truthy operator with a defined value gives the generic filter with the same column, operator and value; otherwise, and with no filters at all, no filter |
| Pagination.GetAllRecordsWithPagination | app/utils/pagination.ts:10-64 | requests pages 0, 1, … until one does not continue; the result is the concatenation of the rows of the pages up to and including the stopping one (`Fetched`) |
| Pagination.GetAllContactsFromBackup | app/utils/pagination.ts:70-80 | fetches column `whatsapp_cloud_ad_source_id` of `contactos_backup` under the not-null filter on that column |
| Pagination.GetAllAgentData | app/utils/pagination.ts:87-92 | fetches the agent columns of the given table without a filter |
| Pagination.GetAllTagsData | app/utils/pagination.ts:99-104 | fetches the tag columns of the given table without a filter |
| Pagination.StopsAtFirstShortPage | app/utils/pagination.ts:48-59 | if pages `0..k-1` are full and page `k` is not, the fetch ends at page `k`; it returns the full pages in fetch order followed by what page `k` brought, with nothing dropped or reordered |
| Pagination.ErrorKeepsEarlierPages | app/utils/pagination.ts:43-46 | an error on page `k` ends the fetch without raising; the fetch returns exactly the rows of pages `0..k-1` |
| Pagination.EmptyPageEndsFetch | app/utils/pagination.ts:57-59 | an empty or missing page `k` ends the fetch and leaves the accumulated rows unchanged |
| Pagination.ShortPageIsLast | app/utils/pagination.ts:48-56 | a page of 1 to 999 rows is appended and ends the fetch |
| Pagination.GatheredLayout | app/utils/pagination.ts:48-56 | for a backend that honours the windows, every page before the last holds exactly 1000 rows; row `1000j + i` of the result is row `i` of page `j` |
| Pagination.FetchResultSize | app/utils/pagination.ts:48-56 | a fetch ending at page `k` returns `1000k` rows plus fewer than 1000 from page `k` |
| Pagination.TableSourceRespectsWindows | app/utils/pagination.ts:30 | the finite-table backend never returns more than a window's 1000 rows |
| Pagination.TablePage | app/utils/pagination.ts:26-30 | against the table backend, page `j` is rows `[1000j, 1000(j+1))` of the table, clipped at its end |
| Pagination.TableGatheredPrefix | app/utils/pagination.ts:48-51 | the first `k` full pages of the table backend concatenate to the first `1000k` rows |
| Pagination.TableSourceStops | app/utils/pagination.ts:26-60 | against a finite table the loop terminates: page `|table| / 1000` is short |
| Pagination.TableSourceReturnsAll | app/utils/pagination.ts:3-8 | against a finite table the fetch returns all records in table order; its last request is page `|table| / 1000` |
| Pagination.FourPagesExample | app/utils/pagination.ts:26-63 | a 3400-row table comes back whole after requesting pages 0 to 3 |
| Pagination.FetchWholeTable | app/utils/pagination.ts:3-8 | running the fetch method against a finite table yields exactly that table, for any columns and filters |
| ReportOptions.Canal | app/routes/reportes/index.tsx:50 | a present, non-empty `canal` parameter is used as is; an absent or empty one becomes `'pymes'` |
| ReportOptions.DataTable | app/routes/reportes/index.tsx:53 | the table is `canales_digitales_data` exactly for channel `'digitales'`, and `pymes_data` for every other channel |
| ReportOptions.ChannelSelectsTable | app/routes/reportes/index.tsx:50-53 | the digital table is read exactly when the parameter is `'digitales'`; any other value, an empty one or none reads `pymes_data` |
| ReportOptions.NonEmpty | app/routes/reportes/index.tsx:70 | `filter(Boolean)` on names is the subsequence holding every non-empty name as often as it occurs and no empty one (`IsFilterOf`), hence in the original order |
| ReportOptions.NamesInFirstOccurrenceOrder | app/routes/reportes/index.tsx:70 | dropping the empty names and then the repetitions lists the names in the order of their first occurrences in the input |
| ReportOptions.UniqueAgents | app/routes/reportes/index.tsx:70 | no duplicates; holds exactly the non-empty display names of the agent rows; lists them in the order in which each first occurs among the rows' display names |
| ReportOptions.RowNameIsOffered | app/routes/reportes/index.tsx:70 | every row whose display name is non-empty has that name in `uniqueAgents` |
| ReportOptions.TagColumn | app/routes/reportes/index.tsx:71 | `tags.map(t => t.tags)`: one value per row, at the row's position, that row's tag column |
| ReportOptions.AsPresent | app/routes/reportes/index.tsx:71 | one present value per list, the list itself |
| ReportOptions.PresentTagLists | app/routes/reportes/index.tsx:71 | `map(t => t.tags).filter(Boolean)` is the filter of the tag column by presence: every present list as often as it occurs, in row order, and no missing one; membership is exactly the tag lists of the rows |
| ReportOptions.PresentTagListsStep | app/routes/reportes/index.tsx:71 | one more row appends its tag list to the filtered column exactly when it has one |
| ReportOptions.AsPresentCounts | app/routes/reportes/index.tsx:71 | a list occurs among the lists as often as it occurs, present, in the column |
| ReportOptions.AsPresentFirstIndex | app/routes/reportes/index.tsx:71 | a list first occurs among the present column values where it first occurs among the lists |
| ReportOptions.ListPairOrder | app/routes/reportes/index.tsx:71 | two distinct present lists keep, after dropping repetitions, the order of their first occurrences, both among the lists and in the column |
| ReportOptions.TagListsInFirstOccurrenceOrder | app/routes/reportes/index.tsx:71 | dropping the missing tag lists and then the repeated ones lists them in the order of their first occurrences, among the present lists and in the rows' tag column |
| ReportOptions.RepeatedTagListIsOfferedTwice | app/routes/reportes/index.tsx:71 | as written, two rows with the same tag list give that list twice, so the options contain duplicates |
| ReportOptions.RepeatedTagListsRepeatOptions | app/routes/reportes/index.tsx:71 | as written, any two rows with equal tag lists put that list at least twice among the options, which then have duplicates |
| ReportOptions.UniqueTags | app/routes/reportes/index.tsx:71 | no duplicates; holds exactly the tag lists that some row has; lists them in the order of their first occurrences, among the present lists and in the rows' tag column |
| Dedup.Distinct | app/routes/reportes/index.tsx:70-71 | `[...new Set(xs)]` holds the values of `xs`, with no duplicates, and is no longer than `xs` |
| Dedup.DistinctKeepsFirstOccurrenceOrder | app/routes/reportes/index.tsx:70-71 | the values come out in the order of their first occurrences |
| Filtering.FilterStep | app/routes/reportes/index.tsx:70-80 | filtering one more element appends it exactly when it passes the test |
| Filtering.SubsequenceCounts | app/routes/reportes/index.tsx:70-80 | a subsequence holds no value more often than its source |
| Filtering.EndsWithKept | app/routes/reportes/index.tsx:70-80 | when the last element passes, the filter ends with it, after the filter of the others |
| Filtering.DropsUnkept | app/routes/reportes/index.tsx:70-80 | when the last element fails, the filter is the filter of the others |
| Filtering.FilterIsUnique | app/routes/reportes/index.tsx:70-80 | the filter contract fixes the result: two sequences meeting it for the same input and test are equal |
| Filtering.FilterKeepsFirstOccurrenceOrder | app/routes/reportes/index.tsx:70 | a value that first occurs before another in a filter's result also first occurs before it in the input |
| Filtering.TwoOccurrences | app/routes/reportes/index.tsx:71 | a value at two positions occurs at least twice |
| Filtering.NoDuplicatesCountsOnce | app/routes/reportes/index.tsx:70-71 | a sequence without duplicates holds each value at most once |
| Filtering.RepeatedValueIsDuplicate | app/routes/reportes/index.tsx:71 | a value held twice makes a duplicate |
| AgentReport.WithAssignee | app/routes/reportes/index.tsx:80 | the subsequence of the agent rows holding every row with a truthy `assigned_user`, as often as it occurs, in order, and no other row (`IsFilterOf`) |
| AgentReport.WithAssigneeCount | app/routes/reportes/index.tsx:80 | as many rows are kept as there are positions with an assignee |
| AgentReport.AssignedNamesAreNames | app/routes/reportes/index.tsx:80 | a display name of a kept row is a display name of the agent rows |
| Records.HasAssignee | app/routes/reportes/index.tsx:80 | `record.assigned_user` is truthy: present and not empty; used as the filter test of `WithAssignee` |
| Records.HasTag | app/routes/reportes/index.tsx:93-96 | `record.tags && record.tags.includes(tag)`, as used in the counters and in `tagEffectiveness` (line 136) |
| Records.CountTagged | app/routes/reportes/index.tsx:135-137 | the number of tagged rows never exceeds the number of rows |
| Records.CountTaggedCountsPositions | app/routes/reportes/index.tsx:135-137 | the count is the number of positions whose row contains the tag |
| AgentReport.GroupOrderStep | app/routes/reportes/index.tsx:87-89 | a row's display name becomes a new, last key of `agentStats` exactly when it was not yet a key |
| AgentReport.TallyIsPositiveExactlyForNames | app/routes/reportes/index.tsx:87-91 | a name's counters are zero if no row has it, and its total is positive if some row has it |
| AgentReport.TallyBounded | app/routes/reportes/index.tsx:91-98 | per agent, `publico <= total` and `privado <= total` |
| AgentReport.TallyCountsNamedRows | app/routes/reportes/index.tsx:84-91 | an agent's total counts every row whose email maps to that name, so two emails with the same name merge |
| AgentReport.GroupsStep | app/routes/reportes/index.tsx:87-98 | adding a row creates its name's entry at zero if absent, then adds the row's contribution |
| AgentReport.ReduceStep | app/routes/reportes/index.tsx:83-101 | one reduce step changes the key order and the entries exactly as the callback does |
| AgentReport.BumpCounters | app/routes/reportes/index.tsx:91-98 | `total` goes up by one; each of `publico` and `privado` goes up by one when the row carries its tag, both when it carries both |
| AgentReport.AddRecord | app/routes/reportes/index.tsx:84-100 | the callback appends a new key at the end of the order only when it is missing, and adds the row's contribution to that key's counters |
| AgentReport.AgentStats | app/routes/reportes/index.tsx:83-101 | the reduce yields one entry per display name, holding that name's counters, with keys in first-occurrence order |
| Rounding.Percent | app/routes/reportes/index.tsx:111-112 | 0 for a zero total; otherwise the integer nearest to `100 * part / total`, halves rounded up; at most 100 when `part <= total` |
| AgentReport.ToRow | app/routes/reportes/index.tsx:104-113 | a line copies the agent and its counters; both percentages are 0 without leads and at most 100 when the count is at most the leads |
| AgentReport.PerformanceTable | app/routes/reportes/index.tsx:104-114 | one line per entry, in entry order, each carrying its entry's agent and total |
| AgentReport.AgentTable | app/routes/reportes/index.tsx:80-114 | one line per distinct display name, so no more lines than rows |
| AgentReport.ColumnTotals | app/routes/reportes/index.tsx:117-119 | when no line has more public (private) leads than leads, neither do the column totals |
| AgentReport.PieChart | app/routes/reportes/index.tsx:121-124 | two slices, "Público" then "Privado", valued by the public and private column totals, both at 0% without leads |
| AgentReport.AgentTableLines | app/routes/reportes/index.tsx:104-114 | one line per entry; agents are distinct; each line carries its agent's counters and percentages; leads are positive; `publico`/`privado` are at most `leads`; percentages are at most 100 |
| AgentReport.TableTotalsAreTallySums | app/routes/reportes/index.tsx:104-119 | the column sums of a table are the sums of its agents' counters |
| AgentReport.TalliesAddUp | app/routes/reportes/index.tsx:83-101 | the counters summed over all agents are those of all rows together |
| AgentReport.AgentTableTotals | app/routes/reportes/index.tsx:117-119 | `totalLeads` is the number of rows with an assignee; `totalPublico` and `totalPrivado` count the rows tagged "Gobierno" and "Privado" |
| AgentReport.PieChartShares | app/routes/reportes/index.tsx:121-124 | two slices, "Público" then "Privado"; their values count the tagged rows; their percentages are in [0, 100] and are 0 without leads |
| AgentReport.SingleAgentTable | app/routes/reportes/index.tsx:104-114 | when all rows share one display name the table is that agent's single line |
| AgentReport.OneAgentTwoSectors | app/routes/reportes/index.tsx:83-114 | any two rows with the same assignee, one public and one private, give one line: 2 leads at 50% / 50% |
| AgentReport.BothSectorsCountTwice | app/routes/reportes/index.tsx:93-98 | any row tagged both "Gobierno" and "Privado" counts in both columns, at 100% each |
| TagReport.TagLine | app/routes/reportes/index.tsx:135-143 | a tag's `leads` is the number of tag rows containing it, at most the row count; the percentage is the rounded share of `totalLeads`, and 0 when `totalLeads` is 0 |
| TagReport.TagEffectiveness | app/routes/reportes/index.tsx:134-144 | one line per report tag name, in the same order |
| TagReport.TagSharesBounded | app/routes/reportes/index.tsx:142 | the percentages are within [0, 100] when there are at least as many leads as tag rows |
| TagReport.TagShareCanExceedHundred | app/routes/reportes/index.tsx:142 | the denominator is report 1's lead count, so two tagged rows against one lead give 200% |
| TagReport.TagEffectivenessEdges | app/routes/reportes/index.tsx:134-144 | no report tags give no lines; zero leads give 0% everywhere |
| LeadReport.HasFacebookSource | app/routes/reportes/index.tsx:167-170 | either attribution column is neither `null`, `undefined` nor `""` |
| LeadReport.CountFacebook | app/routes/reportes/index.tsx:182-186 | the number of Facebook-attributed leads, at most the number of leads |
| LeadReport.WithSource | app/routes/reportes/index.tsx:167-177 | the source is "Facebook Ads" exactly when either attribution column is filled, and "Indeterminado" otherwise; name, phone and date are copied |
| LeadReport.ClassifyLeads | app/routes/reportes/index.tsx:161-187 | one line per lead, in order, each the lead's classification; the Facebook counter equals the number of Facebook-attributed leads and of lines labelled "Facebook Ads"; the other counter equals the lines labelled "Indeterminado"; the two sum to the number of leads |
| LeadReport.Classified | app/routes/reportes/index.tsx:165-179 | one line per lead, in order |
| LeadReport.Summarize | app/routes/reportes/index.tsx:190-194 | `totalLeads` is the sum of the two counters |
| LeadReport.SummaryOf | app/routes/reportes/index.tsx:190-194 | the summary of the leads: `totalLeads` is the number of leads, split into the Facebook-attributed ones and the rest |
| LeadReport.LabelsPartition | app/routes/reportes/index.tsx:182-194 | the two labels partition the lines; the summary's total is the number of leads |
| LeadReport.OneOfEachSource | app/routes/reportes/index.tsx:167-186 | a lead with only an ad id (empty url) is Facebook; one with neither is not; the summary is 2 / 1 / 1 |
| ReportLoader.Fallback | app/routes/reportes/index.tsx:237-253 | the answer of the `catch` branch; its contents are stated by `FallbackIsEmpty` |
| ReportLoader.ReportOf | app/routes/reportes/index.tsx:212-233 | the returned object, with `uniqueTags` as written; what holds of it is stated by `ReportInvariants` |
| ReportLoader.IntendedReport | app/routes/reportes/index.tsx:71 | the same report with the tag options without duplicates, holding the same lists in the order of their first occurrences among the as-written options; every other field unchanged |
| ReportLoader.AgentReports | app/routes/reportes/index.tsx:80-124 | report 1 is the table of the agent rows with an assignee, its column totals and its pie chart |
| ReportLoader.LeadSources | app/routes/reportes/index.tsx:161-194 | the lead lines are the classification of the fetched leads and the summary is theirs |
| ReportLoader.Load | app/routes/reportes/index.tsx:49-253 | when an awaited call throws, the result is the fallback; otherwise the three fetches are paginated fetches of the channel's table, and the result is the report of what they returned |
| ReportLoader.FallbackIsEmpty | app/routes/reportes/index.tsx:235-253 | the fallback resets the channel to `'pymes'` and the table to `pymes_data`, consistent with the channel map; every list is empty and the summary is zero |
| ReportLoader.ReportInvariants | app/routes/reportes/index.tsx:49-233 | the table agrees with the channel; report 1's leads sum to the rows with an assignee; the pie percentages are in [0, 100]; one tag line per report tag; the summary counts each lead once and matches the labels; the agent options have no duplicates and offer every named agent of the table; the tag options are exactly the rows' tag lists |
| ReportLoader.EmptyInputs | app/routes/reportes/index.tsx:72-194 | no report tag data gives no tag lines; no leads gives a zero summary |

## Left out

- Authentication: the session and role lookup, their redirects, and the `user` and `role` fields of the result (app/routes/reportes/index.tsx:30-46).
- All `console.log` / `console.error` output.
- The Supabase query builder (`from/select/range/not/filter`). It is replaced by the abstract page source, which receives the window and the chosen filter as data.
- The `Promise.all` fan-out: its results are taken one after another. The order does not matter, because the calls are independent.
- `getEmailToNameMapping` and `convertEmailToName`: their module is not part of this model. The lookup is an abstract function `Option<string> -> string`. A falsy name is the empty string; a lookup that returns `undefined`, and so creates the key `"undefined"`, is not modelled.
- The `report_tags_collection` query: it is an input, `Option<seq<string>>`, with `None` for a response without data.
- The React component, the CSS animation and the SVG floating-point arithmetic.
- The static `digitalChannelsData` table: it contains no logic.
- `Rounding.Percent`: computes with exact rationals. IEEE-754 effects of `Math.round(a / b * 100)` near halves are not modelled.
- `Records.HasTag`: `tags` is a list of strings and `includes` is membership. A plain-string `tags` column, where `includes` is a substring test, is not modelled.
- `Records.HasAssignee`: `assigned_user` is either absent or a string, and is truthy when non-empty. Other JavaScript values in that column are not modelled.
- `AgentReport.AgentStats`: the dictionary is a `map` plus the order of its keys by first insertion. JavaScript lists integer-like keys first in `Object.entries`. A display name such as `"constructor"` would find an inherited property in `{}`. Neither is modelled.
- `Pagination.GetAllRecordsWithPagination`: requires that some page of the query ends the loop (`EventuallyStops`). Against a backend that answers 1000 rows forever, the source never returns; the model does not cover that case.
- `ReportLoader.Load`: raising is an input flag, `raised`, checked before the fetches. A throw at any point leads to the same fallback, and the fetches have no other effect, so where the throw happens is not modelled.
- `LeadReport.Lead`: only the five selected columns are modelled. Of the agent and tag rows, only `assigned_user` and `tags` are modelled, because no other selected column is read.

## Findings

| source | as written | input that shows it | evidently intended | confidence | as-written member | corrected member |
|---|---|---|---|---|---|---|
| app/routes/reportes/index.tsx:71 | `[...new Set(tagLists)]` is applied to the rows' tag arrays. A `Set` tells arrays apart by identity, and every row's array is a separate object, so nothing is dropped. | two rows whose `tags` are both `["Gobierno"]` give `[["Gobierno"], ["Gobierno"]]` | `uniqueTags` lists each tag list once | medium, not executed; assumes `tags` is an array column, as `includes` suggests | ReportOptions.RepeatedTagListsRepeatOptions, ReportOptions.RepeatedTagListIsOfferedTwice | ReportOptions.UniqueTags, ReportLoader.IntendedReport |

The loader model keeps the program's behaviour: `ReportLoader.ReportOf` and `ReportLoader.Load`
report `PresentTagLists`, duplicates included. The corrected options are `UniqueTags`, and
`ReportLoader.IntendedReport` is the report that uses them.
