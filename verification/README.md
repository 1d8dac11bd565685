# myCVEs in Dafny

A model of the decision logic of myCVEs, a pipeline that:
- reads job files, each naming a vendor, its products and recipients;
- decides which jobs are due at the current hour;
- batches the due jobs that can share one query to the NVD CVE API;
- pages through the API's answer and keeps the CVEs relevant to each job;
- sorts the kept CVEs and removes duplicates;
- sends one notification per recipient;
- records a watermark (the last run) per job file.

The model covers these pieces, each as pure functions and lemmas over immutable datatypes:

- **The JSON key resolver** (`DataParser`, `src/data_parser.py`). It searches a JSON tree with Python's truthiness rules:
  - `False` is a hit.
  - `0`, `""`, `None` and empty containers fall through to a deeper search.
  - A truthy `"children"` sibling merges the direct hit with the deeper hits.
  - A `None` step ends a path.
  - A final list of lists is flattened.
  - Python's `list.extend` of a value that cannot be iterated raises `TypeError`, so the resolver returns a `Result`.
  - A key found nowhere below a dict gives the empty list, not `None`. A list that mixes lists and scalars can make even a missing key raise (`DataParser.AbsentKeyCanRaise`).
- **Record assembly**:
  - Version 1 of the NVD feed is read by `Container`, from `src/container.py`.
  - Version 2 is read by `ContainerV2`, from `mycves/container.py`. It adds the `incl.`/`excl.` version bounds, the CVSS metric preference and the `or ""` defaults.
  - The formatters are in `Formatters` (`src/formatters.py`).
- **Scheduling** (`Jobs`, `src/jobs_.py`):
  - a job file's last run;
  - expanding files into one job per entry and recipient;
  - the "is due" rule on the rounded hour, which can be 24;
  - batching by a stable sort and `groupby`;
  - regrouping per recipient.
- **Query construction, paging and relevance** (`Api` and `Paging`, `src/api.py`):
  - which query a parameter override reaches;
  - the next-page rule and the page loop;
  - product-name spellings;
  - the vendor-then-product substring test;
  - dropping jobs without results while recording their run;
  - the stable descending sort by base score, with updated CVEs deduplicated against the new ones.
- **Retry and failure isolation** (`Errors`, `mycves/errors.py`). The `retry` decorator is a function of what each call does. It returns the number of calls, the waits between them and how the run ended. `filter_errors` keeps the successful results of the gathered batches.
- **Notification decisions** (`Mail`, `src/mail.py`):
  - the subject prefix, subject and title;
  - the From and To headers;
  - a group's jobs have their run recorded only after a successful send.
- **The watermark store** (`JobStates`, `src/config.py`). It maps a file name to the minute of its last run. Its only update stamps one file with the current minute.

Shared pieces:
- `Outcomes`: `Option`, the exception kinds, `Result`, and the "first error wins" list combinators.
- `JsonValues`: Python's value semantics on JSON, that is truthiness, lookup, iteration, subscripting, `in` and `str()`.
- `Text`: ASCII case mapping, `split`, `join`, `rstrip` and substring search.
- `Seqs`, `Ordering` and `Sorting`: a stable insertion sort and `groupby`, with their permutation, ordering, stability and partition lemmas.

Quirks of the code are modelled as written:
- The resolver treats `0` as absent.
- Paging stops one record early because of `> start_index + 1` (`Paging.PagingStopsEarly`).
- A product name with both a blank and an underscore gets only the underscore spelling (`Api.MixedNameKeepsUnderscore`).
- The rounded hour can be 24 (`Jobs.LateEveningIsHourTwentyFour`).
- The batch key uses the insertion order of the parameters.
- A group without any CVE is still announced as "Updated" (`Mail.NothingFoundIsUpdated`).

Inputs the code reads from the outside world are parameters here:
- the clock (`now`);
- the pages the API server answers with (a function from start index to page);
- the formatted query window bounds;
- whether the mail template rendered, and how the SMTP delivery went;
- the date parser of the version 2 feed.

## Model

| member | source | states |
|---|---|---|
| Outcomes.MapAll | src/container.py:147 | A list comprehension whose calls may raise succeeds exactly when every element's call succeeds. It then holds one result per element, in order. Otherwise its error is that of the first element whose call raises. |
| Outcomes.ConcatAll | src/api.py:182-187 | Extending a list with the output of each element succeeds exactly when every element's call succeeds. |
| Outcomes.ConcatAllSnoc | src/api.py:183-186 | Adding one more page: the run succeeds iff the earlier pages and the new page do, and the output grows by exactly the new page's output. |
| Paging.GetNextIndex | src/api.py:51-60 | There is a next index exactly when total − per-page > start + 1, and it is then start + per-page. |
| Paging.NextIndexBelowLast | src/api.py:58-59 | Any next index asked for lies below the index of the last record. |
| Paging.PagingStopsEarly | src/api.py:58 | With 101 results in pages of 100 only the first page is fetched; with 102 the second is fetched too. |
| Paging.PageLoop | src/api.py:159-187 | With a positive page size and a server that echoes the requested index, the loop ends. The k-th request asks for start k·size and gets that page. Every page but the last said to continue and parsed. The run succeeds iff the last page's index and parse succeed, and it then stops because no next index was due. The result is the pages' parsed reports concatenated in order. |
| Paging.CoversAllButLast | src/api.py:58 | When the loop stops normally, the pages asked for reach at least the second-to-last record. |
| Api.ApplyAllSpec | src/api.py:37-46 | After the override loop, a publication-window key reaches only the first query and a modification-window key only the second. Any other key reaches both. The last override of a key wins, and keys without an override keep their value. |
| Api.CreateParamsSpec | src/api.py:19-48 | Both queries hold `resultsPerPage` "100" unless it is overridden, and each holds its own window bounds. Every other parameter lands in both with its value. |
| Api.CreateParams | src/api.py:19-48 | `create_params`: the override loop applied to the default query pair. Its content is stated by `Api.CreateParamsSpec` and `Api.ApplyAllSpec`. |
| Api.SameWindowByDefault | src/api.py:26-35 | Without window overrides the modification window equals the publication window. |
| Api.PageNextIndex | src/api.py:51-60 | The three subscripts run in the source's order, and the first that fails gives the error: KeyError for a dict without the key, TypeError for a page that is not a dict. The arithmetic then raises TypeError unless all three values are numbers, a bool counting as 0 or 1. Otherwise the next index is the paging rule applied to the page's numbers. |
| Api.BoolCountIsOne | src/api.py:55-59 | A page whose `resultsPerPage` is `true`, with start 0 and 5 results, asks for the next index 1, as Python's bool arithmetic does. |
| Api.ReportsOfPage | src/api.py:184-185 | A page's reports are the items of `result/CVE_Items`, each parsed. The steps run in the source's order: subscripting `result`, subscripting `CVE_Items`, iterating the items, parsing each. The first step that raises gives the error, and the page succeeds when none does. |
| Api.GetAllNewPages | src/api.py:176-187 | `get_all_new_pages` against an echoing server has the page-loop guarantees. On success the pages asked for reach the second-to-last record. |
| Api.ExtendProductNameList | src/api.py:63-75 | A name is in the extended set exactly when it is some product lower-cased, or that product's second spelling. |
| Api.ExtendedNamesAreLower | src/api.py:68-75 | Every extended name is in lower case. |
| Api.SpellingsAdded | src/api.py:68-75 | Each lower-cased product is kept. A blank adds the underscore spelling, and an underscore without a blank adds the blank spelling. |
| Api.MixedNameKeepsUnderscore | src/api.py:71-74 | "A_b C" gives "a_b c" and "a_b_c" but never "a b c". |
| Api.WidgetProSpellings | src/api.py:71-72 | "Widget Pro" is also searched as "widget_pro". |
| Api.SameLowerSameNames | src/api.py:68 | Product lists that agree after lower-casing give the same extended names. |
| Api.LowerField | src/api.py:83 | `field.lower()` succeeds exactly on strings and raises AttributeError otherwise. |
| Api.FieldValues | src/api.py:82-90 | The searched fields are the assigner, then exactly the unpacked reference sources, then exactly the unpacked descriptions, then one CPE match per CPE in order. Unpacking fails exactly when a source list cannot be iterated. |
| Api.VendorFields | src/api.py:82-90 | Field i is searched entry i lower-cased, one per entry. They exist exactly when every searched entry is a string. An entry list that cannot be unpacked passes its error on, and otherwise a non-string raises AttributeError. |
| Api.CpeMatchesSearched | src/api.py:88 | When the check does not raise, every CPE has a match string and its lower-cased form is searched. |
| Api.CheckForRelevantCve | src/api.py:78-95 | The check raises exactly when some searched field is not a string. Otherwise it is true iff the lower-cased vendor occurs in some field and some extended product name occurs in some field. |
| Api.CheckIgnoresCase | src/api.py:91-93 | The decision depends only on the lower-case forms of the configured vendor and products. |
| Api.UnderscoreSpellingMatches | src/api.py:91-94 | A product written with a blank matches a field holding its underscore spelling, once the vendor matches. |
| Api.FilterCves | src/api.py:98-102 | The kept CVEs are exactly the inputs the check accepts, drawn from the input without additions. The first check that raises is the error. |
| Api.FilterCvesAppend | src/api.py:98-102 | Filtering two lists separately and joining the results equals filtering the joined list, so order is kept. |
| Api.DroppedFiles | src/api.py:110-114 | The dropped files are exactly the files of the jobs with neither new nor updated CVEs. |
| Api.FilterEmptyJobs | src/api.py:105-115 | The kept jobs are the jobs with results, in order. The store is the old one with the run of each dropped job saved. |
| Api.FilterEmptyJobsStore | src/api.py:105-115 | After dropping, every dropped job's file is stamped with the current minute. No other file is added, and every other file keeps its run. |
| Api.GtStrictTotal | src/api.py:124-125 | The descending order used by `reverse=True` is a strict total order. |
| Api.SortByScore | src/api.py:124-126 | The sort succeeds exactly when the keys can be compared: fewer than two reports, all base scores numbers, or all base scores `[]`. Otherwise it raises TypeError. On success the output is a permutation of the input, in non-increasing base score, with equal scores in their original order. Reports that all have the score `[]` keep their order. |
| Api.Ids | src/api.py:129 | An id is listed exactly when some report carries it. |
| Api.Dedup | src/api.py:130-132 | The kept updated CVEs are exactly those whose id is not among the new CVEs, drawn from the input. |
| Api.SortNew | src/api.py:123-126 | A missing or empty new list is left alone. A non-empty one is sorted by score, and the step raises TypeError exactly when its scores cannot be compared. |
| Api.SortUpdated | src/api.py:127-135 | A missing or empty updated list is left alone. A non-empty one is deduplicated against non-empty new CVEs, then sorted by score. The step succeeds exactly when the scores of the deduplicated list can be compared. |
| Api.SortAndDeduplicate | src/api.py:122-135 | Only the two CVE lists of a job change. The new list is processed before the updated one, and the job succeeds exactly when both steps do. |
| Api.SortAndDeduplicateCves | src/api.py:118-136 | Every job is processed in order, and the first job whose sort raises is the error. |
| Api.PermutationSameIds | src/api.py:129 | Reordering reports does not change the set of their ids. |
| Api.NewCvesSorted | src/api.py:123-126 | A non-empty new list comes out as a permutation of itself, sorted by descending score and stable. An empty or missing one is unchanged. |
| Api.UpdatedCvesDeduplicated | src/api.py:127-135 | A non-empty updated list keeps exactly the CVEs whose id is not among the non-empty new CVEs, sorted by descending score. An empty or missing one is unchanged. |
| Api.NoCveNewAndUpdated | src/api.py:127-132 | After the step no id is reported both as new and as updated. |
| Container.ParseCve | src/container.py:71-82 | Each CVE field is the resolver's result at its fixed path. The two dates are the formatted `publishedDate` and `lastModifiedDate`. The record is built exactly when the five resolver calls and the two date steps succeed. Otherwise the first of them to raise, in the source's order, gives the error. |
| Container.ParseCpe | src/container.py:95-103 | The CPE fields are `vulnerable`, the formatted `cpe23Uri`, and the inclusive start and exclusive end bounds as found. The record is built exactly when those four steps succeed, and otherwise the first to raise gives the error. |
| Container.ParseScore | src/container.py:119-125 | The score fields are read from `cvssV3` and from the top level of the metric. The record is built exactly when the five resolver calls succeed, and otherwise the first to raise gives the error. |
| Container.ParseReport | src/container.py:139-148 | There is one CPE per element resolved at `configurations/nodes/cpe_match`, in order, and the score comes from `impact/baseMetricV3`. The steps run in the source's order: both resolver calls, the CVE, iterating the CPE list, each CPE, the score. The report is built exactly when all succeed, and otherwise the first to raise gives the error. Iterating a `None` CPE list raises TypeError. |
| Container.MissingMetadataIsEmpty | src/container.py:76-77 | An item without the `cve` block gets id and assigner `[]`, not None. |
| Container.AwaitingAnalysisIsUnscored | src/container.py:119-125 | An item whose `impact` is the empty dict resolves its score block to `[]`, and every score field read from that, the base score among them, is `[]`. |
| ContainerV2.OptionalDate | mycves/container.py:79-88 | A date is None exactly when the resolver gives None. Otherwise it is the parser's result on the resolved value: Some when the parser succeeds, and the resolver's or the parser's error otherwise. |
| ContainerV2.ParseCve | mycves/container.py:68-88 | Id, URLs, sources and descriptions are the resolver results under `cve`, and the dates follow the None rule. The record is built exactly when those six steps succeed, and otherwise the first to raise gives the error. |
| ContainerV2.VersionBound | mycves/container.py:108-121 | A bound is "incl. X" when the inclusive value is truthy, else "excl. Y" when the exclusive value is truthy, else "". The exclusive key is resolved only when needed. |
| ContainerV2.VersionBoundReadBack | mycves/container.py:108-121 | A bound string is empty, or tells its kind in its first six characters and carries the value's text after them. |
| ContainerV2.InclusiveWins | mycves/container.py:108-114 | When both bounds are truthy, the inclusive one is reported. |
| ContainerV2.ParseCpe | mycves/container.py:101-121 | The CPE fields are `vulnerable`, the formatted `criteria` and the two bounds. The record is built exactly when those four steps succeed, and otherwise the first to raise gives the error. |
| ContainerV2.PreferredMetric | mycves/container.py:139-146 | The first metric list present in preference order supplies its first entry. With none present, an empty dict is used. |
| ContainerV2.ScoreSource | mycves/container.py:138-146 | A missing `metrics` key raises KeyError. Otherwise the preference chain decides. |
| ContainerV2.MetricPreference | mycves/container.py:139-146 | Version 3.1 wins over 3.0, which wins over 2. Without any of them the score is read from an empty dict. |
| ContainerV2.FirstTruthy | mycves/container.py:147-159 | An `or` chain ending in "" stops at the first path whose resolver result is truthy or raises, and that result is the outcome. A truthy result comes from one of the paths. |
| ContainerV2.FalsyFieldsDefault | mycves/container.py:152 | A field whose every candidate is falsy, such as a base score of 0, becomes "". |
| ContainerV2.ParseScore | mycves/container.py:137-159 | Each score field follows its own fallback chain on the preferred metric. A failing metric choice is the error. Otherwise the record is built exactly when the five chains succeed, and the first to raise gives the error. |
| ContainerV2.ParseReport | mycves/container.py:173-182 | There is one CPE per element at `cve/configurations/nodes/cpeMatch`, in order, and the score comes from the resolved `cve` object. The report is built exactly when the resolver calls, the CVE, the iteration, each CPE and the score succeed, and otherwise the first to raise, in the source's order, gives the error. |
| DataParser.Traverse | src/data_parser.py:11-33 | A scalar gives None, and a dict never gives None. A list gives a list of the same length. Under a dict, a truthy value at the key with no truthy `children` is the result; with a truthy `children` it heads the deeper hits, and the deep search's exception is raised; a stored `False` is returned; any other falsy value or a missing key gives the deep search as a list. |
| DataParser.TraverseEach | src/data_parser.py:31-32 | A list is traversed element-wise: the i-th result is the traversal of the i-th element. |
| DataParser.DeepTraverse | src/data_parser.py:36-52 | `deep_traverse`: each member's contribution in member order, the first exception winning. This is stated by `DataParser.DeepTraverseAppend` and `DataParser.Contribution`. |
| DataParser.Contribution | src/data_parser.py:43-51 | A None sub-result adds nothing and a scalar adds itself. A flat list adds its elements, and a list of lists adds its lists' elements. |
| DataParser.SpliceAll | src/data_parser.py:46-47 | Extending with each sub-list concatenates a list of lists. It raises exactly when some element is None, a boolean or a number. |
| DataParser.RecursiveGet | src/data_parser.py:55-70 | Errors and None from the path walk pass through. A truthy final list whose first element is a list is flattened one level, and anything else is returned as found. |
| DataParser.RecursiveGetLoop | src/data_parser.py:55-70 | The source's loop with its early return computes the recursive definition. |
| DataParser.DirectHit | src/data_parser.py:17-22 | A truthy value at the key, with no truthy `children`, is the result. |
| DataParser.ChildrenMerge | src/data_parser.py:23-26 | With a truthy `children` the direct hit heads the list of deeper hits. |
| DataParser.FalsyFallsThrough | src/data_parser.py:19-30 | A stored `False` is returned. Any other falsy value, or a missing key, gives the deep search as a list. |
| DataParser.DeepTraverseAppend | src/data_parser.py:40-52 | The deep search visits members in order: searching two runs of members appends their hits, and the first exception wins. |
| DataParser.ShortCircuit | src/data_parser.py:60-64 | Once a step yields None, the result is None whatever the rest of the path is. |
| DataParser.NotFoundIsEmpty | src/data_parser.py:17-52 | A key that occurs nowhere gives `[]` below a dict, and a list of `[]` below a list, when lists hold objects. |
| DataParser.NotFoundMembers | src/data_parser.py:36-52 | The deep search over members without the key finds nothing. |
| DataParser.MissingPathIsEmpty | src/data_parser.py:55-70 | A path whose first key occurs nowhere resolves to `[]`, whatever follows. |
| DataParser.MixedListRaises | src/data_parser.py:44-47 | A list mixing a list and a number makes the deep search extend with None and raise TypeError. |
| DataParser.AbsentKeyCanRaise | src/data_parser.py:55-64 | A key that occurs nowhere can still make `recursive_get` raise TypeError. |
| DataParser.NestedListTraverse | src/data_parser.py:31-33 | Traversing a list maps lists to lists and scalars to None, element-wise. |
| Formatters.RoundTime | src/formatters.py:12-16 | The result is on a whole minute, not later than the input and less than a minute earlier. |
| Formatters.RoundTimeIdempotent | src/formatters.py:16 | Rounding twice equals rounding once. |
| Formatters.CpeMatchText | src/formatters.py:40 | The shortened match never ends in "-", and it is "" when the name has fewer than four `:`-fields. |
| Formatters.CpeMatchOfFields | src/formatters.py:40 | A CPE 2.3 name built from its fields shortens to "vendor product version". |
| Formatters.FormatCpeMatch | src/formatters.py:34-44 | None stays None, and a string is shortened. Any other value raises FormatException. |
| Formatters.DatePrefix | src/formatters.py:53 | The result is the prefix of the input before its first "T", or the whole input without a "T". |
| Formatters.FormatCpeDates | src/formatters.py:47-57 | None stays None, and a string is cut at its first "T". Any other value raises FormatException. |
| Text.RStrip | src/formatters.py:40 | Stripping a character leaves a prefix that does not end in it, and only that character was removed. |
| Text.SplitJoinRoundTrip | src/formatters.py:40 | Joining the pieces of a split with the separator gives back the string. |
| Text.ContainsIsSubstring | src/api.py:91 | Python's `needle in field` holds exactly when the needle occurs at some position. |
| Text.Capitalize | src/mail.py:46 | `capitalize` keeps the length, upper-cases the first letter and lower-cases the rest. |
| JobStates.SaveLastJobRun | src/config.py:143-149 | Saving a run stamps the job's file with the current minute and leaves every other file unchanged. |
| JobStates.SaveAll | src/api.py:110-114 | Saving runs for a list of files stamps exactly those files and leaves the others unchanged. |
| Jobs.GetLastJobStart | src/jobs_.py:18-31 | A stored watermark is returned. For a new file the result is the current minute less `interval` hours. |
| Jobs.SavedRunIsNextStart | src/jobs_.py:25-26 | A saved run is where the next run of that file starts. |
| Jobs.UpdateJobConfigs | src/jobs_.py:50-59 | Each file gets its name and last run. It fails exactly when some file lacks `interval`, and the error is then KeyError. |
| Jobs.EntryJobs | src/jobs_.py:70-85 | A well-formed entry of a file with all header keys gives one job per address. Each job has that address, the file's header, name and last run, and no CVEs. Otherwise the entry gives no jobs. |
| Jobs.EntriesJobs | src/jobs_.py:69-70 | A file with entries but no `send_to` raises KeyError. With `send_to` the expansion does not raise. |
| Jobs.FileJobs | src/jobs_.py:69 | A file without `jobs` raises KeyError. |
| Jobs.GetJobs | src/jobs_.py:62-85 | Expansion succeeds exactly when every file expands. |
| Jobs.InEntryJobs | src/jobs_.py:70-80 | A job comes from an entry exactly when it is that entry's job for one of the addresses. |
| Jobs.EntriesJobsMembers | src/jobs_.py:68-85 | A job comes out of a file exactly when it is built from one of its well-formed entries and one of its addresses. |
| Jobs.GetJobsMembers | src/jobs_.py:62-85 | The jobs of all files are exactly the jobs of each file. |
| Jobs.EntriesJobsCount | src/jobs_.py:68-85 | A file yields (well-formed entries) × (addresses) jobs. |
| Jobs.RoundedHour | src/jobs_.py:92-94 | The rounded hour lies in 0..24, and it is 24 exactly from 23:30 on. |
| Jobs.GetJobStatus | src/jobs_.py:88-95 | An interval of 0 raises ZeroDivisionError, and any other interval does not raise. A job is then due iff the rounded hour minus the start hour is a multiple of the interval, and not due otherwise. |
| Jobs.MultipleIffRemainder | src/jobs_.py:95 | A zero remainder means divisibility, for either sign of the interval. |
| Jobs.HourlyAlwaysDue | src/jobs_.py:88-95 | A job with interval 1 is always due. |
| Jobs.LateEveningIsHourTwentyFour | src/jobs_.py:92-95 | At 23:45 the hour is 24, so a five-hourly job from midnight is not due, yet it is due at 00:10. |
| Jobs.GetCurrentJobs | src/jobs_.py:98-102 | The run raises exactly when some job has interval 0, and the error is then ZeroDivisionError. Otherwise it keeps exactly the due jobs, drawn from the input. |
| Jobs.CurrentJobsAppend | src/jobs_.py:98-102 | The filter commutes with concatenation, so due jobs keep their order. |
| Jobs.TupleLtStrictTotal | src/jobs_.py:114-115 | Comparing tuples of strings is a strict total order. |
| Jobs.KeyLtStrictTotal | src/jobs_.py:109-117 | Comparing batch keys is a strict total order. |
| Jobs.GroupJobs | src/jobs_.py:105-127 | `group_jobs`: the stable sort by the batch key, cut into runs of one key. The partition and stability are stated by `Jobs.GroupJobsPartition` and `Jobs.GroupJobsSameKeySameGroup`. |
| Jobs.GroupJobsPartition | src/jobs_.py:105-127 | The batches concatenate to the stably sorted input, a permutation of it. Each batch is non-empty with one key, and each key's jobs keep their order. |
| Jobs.GroupJobsSameKeySameGroup | src/jobs_.py:109-127 | Distinct batches have distinct keys, so jobs with equal keys share a batch. |
| Jobs.JoinJobsForRecipient | src/jobs_.py:141-148 | `join_jobs_for_recipient`: all batches flattened, stably sorted by recipient and cut into runs of one recipient. This is stated by `Jobs.JoinJobsPartition` and `Jobs.JoinJobsDistinctRecipients`. |
| Jobs.JoinJobsPartition | src/jobs_.py:141-148 | The per-recipient groups hold the input's jobs as a permutation. Each group is non-empty with one recipient, and each recipient's jobs keep their order. |
| Jobs.JoinJobsDistinctRecipients | src/jobs_.py:146-148 | No recipient gets two groups. |
| Seqs.Filter | src/jobs_.py:102 | The filter keeps exactly the elements that pass, drawn from the input. |
| Seqs.FilterAppend | src/jobs_.py:102 | Filtering distributes over concatenation. |
| Sorting.SortBy | src/jobs_.py:109-117 | The sort is a permutation of its input. |
| Sorting.SortByStable | src/jobs_.py:109-117 | With a strict total order the sort is sorted, and elements with equal keys keep their order. |
| Sorting.GroupBy | src/jobs_.py:118-127 | The groups concatenate to the input. They are non-empty runs of one key, and neighbouring runs differ in key. |
| Sorting.GroupKeysIncrease | src/jobs_.py:118-127 | On sorted input the groups' keys strictly increase. |
| Sorting.GroupsOfSortedAreDistinct | src/jobs_.py:118-127 | On sorted input no key has two groups. |
| Ordering.StrLtStrictTotal | src/jobs_.py:146 | Python's string `<` is a strict total order. |
| Errors.Waits | mycves/errors.py:49-50 | There is one wait per retried call. |
| Errors.WaitsArePowers | mycves/errors.py:39-50 | The k-th wait is delay · backoff^k. |
| Errors.RetryFrom | mycves/errors.py:38-63 | From call k on, the calls and waits follow the retry rules and the run ends as the decorator ends. |
| Errors.Retry | mycves/errors.py:17-95 | The callable is called at least once and at most max(tries − 1, 0) + 1 times. Every call but the last raised a listed exception and was followed by a wait. A value is returned unchanged, and an unlisted exception propagates at once. A listed one ends the run only on the last allowed call, replaced by `raises` when given. |
| Errors.FirstUnretriedCallEnds | mycves/errors.py:41-43 | The first call that returns or raises an unlisted exception ends the run, with no further call. |
| Errors.DefaultsAlwaysFailing | mycves/errors.py:17-63 | With the defaults an always-failing call is made five times, with waits 1, 2, 4 and 8, and then `raises` ends the run. |
| Errors.SingleTry | mycves/errors.py:40-63 | With fewer than two tries there is one call and no wait. |
| Errors.FilterErrors | mycves/errors.py:98-115 | The successes of the zipped pairs are kept, and only those. |
| Errors.ErroredJobs | mycves/errors.py:106-113 | Exactly the failures of the zipped pairs are logged, each with its group. |
| Errors.FilterErrorsPartition | mycves/errors.py:108-112 | Each zipped pair is either kept or logged, never both. |
| Errors.FilterErrorsAppend | mycves/errors.py:108-115 | Filtering two batches separately gives the filter of the whole, so kept results stay in order. |
| Mail.AnyNew | src/mail.py:37 | True iff some job has a non-empty new list. |
| Mail.AnyUpdated | src/mail.py:38 | True iff some job has a non-empty updated list. |
| Mail.CreateSubjectPrefix | src/mail.py:33-39 | `create_subject_prefix`: the prefix chosen from whether any job has new and any has updated CVEs. The three cases are stated by `Mail.SubjectPrefixCases`. |
| Mail.SubjectPrefixCases | src/mail.py:33-39 | The prefix is "New and updated" iff some job has new and some has updated CVEs. It is "New" iff some has new and none has updated, and "Updated" iff none has new. |
| Mail.NothingFoundIsUpdated | src/mail.py:39 | A group without any CVE is announced as "Updated". |
| Mail.Vendors | src/mail.py:46 | The vendors are the jobs' vendors capitalized, in job order. |
| Mail.CreateMessageSubject | src/mail.py:42-49 | The title is prefix + " CVEs". The subject is the title + " for your products from " + the vendors joined by ", ". |
| Mail.SubjectOfSingleJob | src/mail.py:46-49 | A one-job subject names that vendor capitalized and starts with the title. |
| Mail.SubjectReadBack | src/mail.py:42-49 | For any non-empty group, the subject starts with the title and the middle text. When no vendor holds a comma, the rest splits on ',' back into the capitalized vendors in job order. |
| Mail.CreateEmail | src/mail.py:52-69 | An empty group raises IndexError and a failed rendering raises EmailException. Otherwise From is the sender, To is the first job's recipient, and the subject and updates flag follow the group. |
| Mail.Files | src/mail.py:152-153 | The group's files, in job order. |
| Mail.SendEmail | src/mail.py:130-154 | Sending succeeds exactly when the group is non-empty, rendering worked and delivery succeeded. An empty group raises IndexError, and a failed rendering raises EmailException. A connect timeout or connection error becomes EmailException, and any other delivery failure keeps its kind. Only a success records the runs. |
| Mail.WatermarkOnlyAfterSend | src/mail.py:139-154 | After a successful send every job of the group is stamped with the current minute and no other file changes. After a failure the store is unchanged. |

## Left out

- HTTP, async I/O and fan-out (`make_api_request`, the httpx client, `asyncio.gather` in `get_cves_by_group`, both `main.py` files) are network and scheduling machinery. Fetched pages are a function from start index to page, and each batch's success or failure is an input of `Errors.FilterErrors`.
- `get_cves_by_group` is not modelled. It only wires the modelled steps together around the async fetches.
- SMTP, TLS and HTML (`create_connection`, `start_server`, `sendmail`, the jinja template and MIME building) are library and network calls. Whether rendering worked and how delivery went are parameters of `Mail.SendEmail`.
- YAML loading and dumping (`read_job_files`, `JobStates.load` and `dump`) are file I/O. A job file arrives as the loaded dict, with absent keys as `None`.
- Date formatting (`format_parameter_time`, the strftime and strptime of the store, version 2's `format_cve_dates`) is library code. The query window bounds are opaque strings, times are integer microseconds, and the version 2 date parser is a parameter that may fail.
- Logging and `log_errored_jobs` have no effect on any result. `Errors.ErroredJobs` gives the pairs it would log.
- `mycves/formatters.py` repeats `round_time` and `format_cpe_match`, which are modelled once.
- `JsonValues.Json`: floats are integers (a base score of 7.5 is 75 tenths), and `repr` escaping of strings is not modelled.
- `Text.Lower`: case mapping is ASCII only, where Python's `lower` and `capitalize` are Unicode-aware.
- `Errors.Retry`: `sleep` is not called, and the waits are returned instead. A negative delay, which would make `sleep` raise, is not modelled. Whether an exception is in `exceptions_to_check` is a flag of each attempt, and `raises` is a flag.
- `Api.SortByScore`: Python compares sort keys of one kind, and the model covers the kinds NVD data produces. Numbers (ints and bools) are sorted, and keys that are all `[]`, which is what an unscored item gives, compare equal. Keys that are all strings, or lists of which some are non-empty, are treated as incomparable and raise TypeError. Python would order those lexicographically.
- `Paging.PageLoop`: it requires a positive page size and a server whose pages echo the start index asked for, with a fixed page size and total. Against other servers the source's loop may never end, which a terminating model cannot express.
- `Api.GetAllNewPages`: it carries the same server requirement as `Paging.PageLoop`.
- `Outcomes.ConcatAll`: its contract states only when it succeeds. The value it builds is stated by `Outcomes.ConcatAllSnoc`.
- `Mail.SendEmail`: all runs of a group are stamped with one `now`. The source reads the clock once per job, so stamps may differ across a minute boundary.
- `Api.FilterEmptyJobs`: it uses one `now` for every dropped job, for the same reason.
- `Jobs.GetJobStatus`: the hour is computed from one `now`. The source reads the clock two times, first for the minute and then for the hour. Across an hour boundary it can round 10:59:59.999 up from hour 11, giving 12, which the model does not produce.
- `Jobs.GetCurrentJobs`: the source chains lazy generators, so its first error can come from a later stage than the model's. The stages are modelled one after the other. Which inputs raise is the same, but when one run holds two different faults the reported kind may differ.
- `Jobs.EntryJobs`: an entry that `Job(**job)` rejects (a missing, unknown or non-dict keyword set) is one `Malformed` case. The fields of a well-formed entry are typed, so ill-typed entries that the dataclass accepts are outside the model. Examples are `additional_parameters` left empty, which YAML loads as `None` and which later makes `group_jobs` raise AttributeError, and `products` given as one string, which Python iterates per character.
- `Jobs.GetLastJobStart`: a stored watermark is a time, not the formatted string, because the string loses nothing once seconds are zero.
- `Container.ParseCve`: a missing key below a dict gives `[]` rather than `None`, as the resolver's code does. So absent metadata yields empty lists, and only a `None` step yields `None`.
- `Jobs.FileJobs`: a loaded file's `jobs` or `send_to` of `None` stands for a missing key and raises KeyError. A key present with the value null, for which Python raises TypeError on iteration, is not distinguished.
- `JsonValues.Json`: an object's member list may repeat a key. Lookups take the first member with the key, and the deep search visits every member. Python's JSON decoder keeps only the last value of a repeated key, so documents with repeated keys are outside the model.
- `Errors.FilterErrors`: a `Failure` stands only for an `Exception` instance. A gathered `BaseException` that is not an `Exception`, such as a cancellation, passes the source's `isinstance` test and is a `Success` here.
