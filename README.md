# yt-wrapped in Dafny

A verified model of the two scripts of yt-wrapped, a "year in review" for a YouTube
watch history.

- `processData.py` reads the watch-history export and asks the video catalog for each
  video's metadata, in batches of 50 ids. It then writes one record per watched video.
  The logic modelled here is:
  - the conversion of a `PT#H#M#S` duration to seconds (`youtube_iso8601_pt_to_seconds`);
  - the `batched` generator;
  - taking the ids out of the watch and channel links;
  - the merge loop that fills each record in place by its index.
- `analyzeData.py` reads the records back and narrows them down in four steps:
  - drop private videos;
  - keep those watched in the configured date window;
  - sort by watch time;
  - drop over-long videos, unless their channel is exempt.
  
  It then removes repeated videos, keeping the earliest watch, and counts the repeats. One
  aggregation pass builds, per channel, the display name, the video count and the
  seconds watched, plus the total seconds and the tag-word counts. Nine common words are
  deleted from the tag-word counts. Last come the six twenty-row tables: channels by
  videos, channels by time, top tags, longest videos, shortest videos, and most rewatched.

The model follows the code's own structure:

| file | concern |
|---|---|
| `wrappers.dfy` | `Option` and `Result` |
| `text.dfy` | Python's `split`, with `[0]` and `[-1]`; `int()` on digit strings; ASCII `lower` |
| `duration.dfy` | the duration parser |
| `batching.dfy` | `batched`, as its `while` loop and as the function `Chunks` it computes |
| `ingest.dfy` | the `VideoData` class, the ids from links, and the in-place merge loop |
| `seqs.dfy` | filtering and Python's stable sort (`SortBy`), with their laws |
| `counters.dfy` | `collections.Counter` in insertion order, `del`, and `most_common` |
| `records.dfy` | the record read back by the analysis, and the script's settings |
| `filters.dfy`, `dedup.dfy`, `aggregate.dfy`, `ranking.dfy` | the analysis stages |
| `report.dfy` | the analysis main block, end to end |

Each loop is a method. Its `ensures` ties the result to a function of the input, and the
lemmas prove what the scripts promise about that function.

Modelling choices:
- Timestamps are whole seconds since the epoch. The script's window, 2023-01-01 to
  2023-12-31 at midnight (pendulum's UTC default), is therefore `1672531200..1703980800`.
- Python dictionaries iterate in insertion order, and `most_common` breaks ties by that
  order. So a `Counter` keeps its keys in first-insertion order.
- `sort(reverse=True)` is stable. It is modelled as a stable ascending sort by the
  negated key, which puts the same records in the same order.
- Tag words are counted once per occurrence, empty words from double spaces included;
  `Aggregate.TagCountedPerOccurrence` shows that a word given twice on one record counts 2.

## Model

| member | source | states |
|---|---|---|
| Text.SplitJoin | processData.py:26-37 | `sep.join(s.split(sep)) == s`: the parts hold all of the text, and only the separators are missing |
| Text.FirstFieldOf | processData.py:26 | `(a + sep + b).split(sep)[0] == a` when `a` has no separator |
| Text.LastFieldOf | processData.py:30 | `(a + sep + b).split(sep)[-1] == b` when `b` has no separator |
| Text.ParseDecimal | processData.py:26 | the modelled `int()` succeeds exactly on non-empty strings of decimal digits |
| Text.DecimalRoundTrip | processData.py:26-37 | the modelled `int()` reads back the modelled `str(n)` for every natural number (Python's own `str` raises above 4300 digits) |
| Duration.PtToSeconds | processData.py:19-45 | the result is `-1` or non-negative; it is non-negative exactly when the hours, minutes and seconds texts all parse |
| Duration.WellFormedDuration | processData.py:22-41 | for digit components, `PT{h}H{m}M{s}S` with any subset present, in order, gives `3600*h + 60*m + s` (components of at most 4300 digits in the source, see `Text.ParseDecimal` below); absent parts count 0, so `PT` is 0 and `PT{h}H{s}S` is `3600*h + s` |
| Duration.RenderSeconds | processData.py:33-39 | the seconds are read after the `H` when there is no `M`, and after the last `M` otherwise |
| Duration.DayPartFails | processData.py:22-45 | `P{d}DT{h}H` returns `-1` (the hours text still holds `D`), without raising |
| Duration.EmptyHoursFails | processData.py:24-45 | an empty hours text (`PTH...`) returns `-1` |
| Duration.FirstTwoIgnored | processData.py:22 | the first two characters are dropped whatever they are; a string of at most two characters gives 0 |
| Batching.Batched | processData.py:64-70 | `n < 1` is the `ValueError`; otherwise the loop's batches are `Chunks(xs, n)` |
| Batching.ChunksFlatten | processData.py:68-70 | the batches concatenate back to the input |
| Batching.ChunkSizes | processData.py:68-70 | every batch except the last has exactly `n` items, the last has 1 to `n`, and there are none for empty input |
| Batching.ChunkAt | processData.py:141 | batch `k` is the slice of the input from `n*k`, so `start_idx + batch_idx` indexes the visited item |
| Batching.ChunkCount | processData.py:141 | the number of batches is at most the number of start indices `range(0, len(data)+50, 50)` yields |
| Ingest.IdsFromUrls | processData.py:128-134 | `…=id` gives the video id `id`, `…/id` gives the channel id `id`, a link without a separator is its own id, and the private videos' empty channel link gives `""` |
| Ingest.VideoData.constructor | processData.py:48-61 | a new record holds the defaults: published `''`, duration `-1`, views `-1`, no tags |
| Ingest.VideoData.ApplyInfo | processData.py:164-167 | the record takes the answer's publish date and converted duration; a missing view count becomes 0 and missing tags `[]` |
| Ingest.MergeOne | processData.py:155-167 | only `data[idx]` changes, and only when the catalog answers for its id |
| Ingest.MergeBatch | processData.py:155-167 | the records of the batch that the catalog answers for are updated through `data[start + position]`; all others keep their metadata |
| Ingest.MergeMetadata | processData.py:141-167 | every record the catalog answers for ends with that answer's metadata, and every other record keeps what it had |
| Seqs.SortBySorted | analyzeData.py:44 | `sorted` returns its input in ascending key order, as a permutation |
| Seqs.SortByStable | analyzeData.py:44 | `sorted` is stable: the elements with one key keep their input order |
| Counters.Add | analyzeData.py:91-92 | `c[k] += n` adds `n` to `k` only; a new key goes last in iteration order |
| Counters.AddTotal | analyzeData.py:91-92 | `c[k] += n` adds `n` to the sum of the counts |
| Counters.Delete | analyzeData.py:101 | `del c[k]` removes `k`, changes no other count, keeps the other keys in their iteration order, and is a no-op for a missing key |
| Counters.MostCommonEntries | analyzeData.py:115 | `most_common(n)` gives at most `n` entries; each is a key with its count, no key appears twice, and counts do not increase |
| Counters.MostCommonIsTop | analyzeData.py:115 | a key left out of `most_common(n)` counts no more than any key returned |
| Counters.MostCommonTies | analyzeData.py:115 | the entries returned with one count are the first entries with that count in iteration order |
| Filters.DropPrivateSpec | analyzeData.py:35 | keeps exactly the records not titled `PRIVATE VIDEO`, each as often as it occurs, and distributes over concatenation (input order) |
| Filters.WithinRangeSpec | analyzeData.py:41 | keeps exactly the records with `start <= when_watched <= end`, both ends included, in input order |
| Filters.SortByWatchTimeSpec | analyzeData.py:44 | the sort is ascending in watch time, a permutation, and stable |
| Filters.CapDurationSpec | analyzeData.py:48-52 | keeps a record exactly when `0 <= duration <= cap` or its channel is exempt; keeps order and sortedness; a second pass changes nothing |
| Filters.CapDurationExamples | analyzeData.py:47-52 | an exempt channel's `-1` record survives; an over-long record survives only on an exempt channel |
| Filters.ScriptCap | analyzeData.py:19-26 | with the script's settings, 10740 seconds pass, 10741 pass only on the five exempt channels, and `-1` passes on `ZFG` |
| Dedup.RemoveDuplicates | analyzeData.py:55-70 | the loop yields the first occurrences (or the input with removal off), `seen`, `video_id_to_object` and `duplicated` as the functions below define them |
| Dedup.FirstOccurrencesSpec | analyzeData.py:59-69 | every video id is kept once, as its first record, in input order |
| Dedup.DuplicateCounts | analyzeData.py:60-62 | `duplicated[id]` is the number of records of `id` minus one; `id` is a key exactly when watched twice or more |
| Dedup.DedupConserves | analyzeData.py:59-69 | `len(new_data) + sum(duplicated.values()) == len(data)` with removal on |
| Dedup.LastRepeatsSpec | analyzeData.py:60-62 | `video_id_to_object` has the keys of `duplicated`, and holds each video's last record, which is not its first |
| Dedup.KeepsEarliest | analyzeData.py:54-69 | on watch-time-sorted input, the record kept for a video is its earliest watch |
| Dedup.DedupKeepsSorted | analyzeData.py:55-70 | removing duplicates from sorted input leaves it sorted |
| Aggregate.CountWords | analyzeData.py:94-95 | the innermost loop counts each word of one tag |
| Aggregate.CountTagWords | analyzeData.py:93-95 | the tag loop counts the words of each tag in turn |
| Aggregate.Aggregate | analyzeData.py:83-96 | the loop yields the name map, both channel counters, the total and the tag-word counter as the functions below define them |
| Aggregate.AggregateSnoc | analyzeData.py:89-96 | one more record updates every table exactly as the loop body does |
| Aggregate.ChannelCountsSpec | analyzeData.py:91 | a channel's video count is its number of records, and the counted channels are those with a name |
| Aggregate.ChannelSecondsSpec | analyzeData.py:92 | a channel's time watched is the sum of its records' durations |
| Aggregate.ChannelCountsTotal | analyzeData.py:91 | the video counts add up to `len(data)` |
| Aggregate.ChannelSecondsTotal | analyzeData.py:92-96 | the channel times add up to `total_video_length`, including any `-1` |
| Aggregate.ChannelOrders | analyzeData.py:90-92 | both channel counters list the channels in the same order |
| Aggregate.ChannelNameIsLatest | analyzeData.py:90 | a channel id has a name exactly when it occurs, and the name is the one on its latest record |
| Aggregate.ChannelScenario | analyzeData.py:89-96 | two videos of one channel (100 s, 200 s) and one of another (50 s) give counts 2 and 1, times 300 and 50, and a total of 350 |
| Aggregate.AddAllCounts | analyzeData.py:94-95 | counting a list of words adds each word's number of occurrences |
| Aggregate.AddTagWordsCounts | analyzeData.py:93-95 | counting a record's tags adds the occurrences of each lower-cased, space-split word |
| Aggregate.TagCountsSpec | analyzeData.py:93-95 | `tag_keywords[w]` is the number of occurrences of `w` among all tag words, and the counts sum to the number of words |
| Aggregate.TagCountedPerOccurrence | analyzeData.py:93-95 | a one-word tag given twice on one record counts 2 |
| Aggregate.RemoveStopWords | analyzeData.py:99-101 | the deletion loop deletes each common word in turn |
| Aggregate.DeleteAllOrder | analyzeData.py:99-101 | the words the deletions leave keep their iteration order |
| Aggregate.DeleteAllSpec | analyzeData.py:99-101 | afterwards no common word is a key, every other word keeps its count, the remaining words keep their iteration order (the order `most_common` breaks ties by at analyzeData.py:137), and a missing word is no error |
| Ranking.MostWatchedByCount | analyzeData.py:108-116 | one row per `most_common(20)` entry of the video counts, with that channel's count |
| Ranking.MostWatchedByTime | analyzeData.py:119-127 | one row per `most_common(20)` entry of the channel times, with that channel's time |
| Ranking.MostDuplicated | analyzeData.py:166-174 | one row per `most_common(20)` entry of `duplicated`, with its count |
| Ranking.LongestSpec | analyzeData.py:143-151 | the longest table is longest first, drawn from the records, and a record left out is no longer than any shown |
| Ranking.LongestTies | analyzeData.py:143-150 | the equally long records shown are the first with that length in watch order |
| Ranking.ShortestFromTail | analyzeData.py:161 | the shortest table holds the last 20 records of the longest-first order |
| Ranking.ShortestAscending | analyzeData.py:161 | the shortest table is shortest first |
| Ranking.ShortestAreShortest | analyzeData.py:155-162 | a record left out of the shortest table is no shorter than any shown |
| Ranking.ShortestSpec | analyzeData.py:155-162 | the shortest table is shortest first, drawn from the records, and really the shortest |
| Ranking.ChannelLookupsSucceed | analyzeData.py:108-127 | every counted channel id has a display name, so the lookups raise no `KeyError` |
| Ranking.DuplicateLookupsSucceed | analyzeData.py:166-174 | every repeated video id has a stored record of that video, so the lookups raise no `KeyError` |
| Report.FilteredSpec | analyzeData.py:34-52 | after the filters, every record is public, in the window and under the cap, and the list is sorted; every admitted input record is kept exactly as often as it occurs, and nothing else is kept |
| Report.DedupStage | analyzeData.py:54-70 | duplicate removal keeps those facts, makes ids distinct, and accounts for every dropped record |
| Report.ReportCounts | analyzeData.py:89-101 | in the report, a non-common word counts its occurrences among the kept records' tag words, a common word is absent, a channel counts its kept records, and its time is the sum of their durations |
| Report.Analyze | analyzeData.py:34-175 | the whole analysis computes `Expected`: every part of the report is its stage's function of the parts before it (the filtered records, the first occurrences when removal is on, the aggregation of the kept records, the counts without the common words, and the six tables drawn from them). Also: the records are admitted and sorted, ids are distinct when removal is on, counts add up to the record count, seconds add up to the total, no common word remains, every table has at most 20 rows, and top tags are by non-increasing count |

## Left out

- Parsing the watch-history HTML (processData.py:87-119) is left out. It runs through a
  third-party parser. The model starts from the link strings.
- Date parsing and time zones (pendulum) are left out. Timestamps are integers, and the
  range's day count (analyzeData.py:104) is not modelled.
- The network calls to the video catalog are left out. (The sleep between batches is
  commented out at processData.py:169.) The catalog's answers are one map from video id to metadata. So the model does
  not cover an answer missing only for one request, or failed requests.
- The API key check and all file and JSON input and output are left out. The records are
  parameters and results.
- Rendering is left out: colours, tables and progress prints. The tables keep the
  values they show (names, counts, seconds, records), but not the hour rounding.
- The float figures are left out: hours watched, hours per day and the mean length
  (analyzeData.py:103-106). The mean divides by `len(data)` without a guard. An empty
  selection raises `ZeroDivisionError` at analyzeData.py:106, before any table is built.
  The model does not cover that step.
- Text.ParseDecimal: Python's `int()` also accepts surrounding whitespace, a sign,
  underscores and non-ASCII decimal digits (`int('٣') == 3`). Here those are parse
  failures, so a duration such as `PT+5S` is `-1` here, whereas the source gives 5. In the other direction, `int()` (Python 3.11+, 3.10.7+)
  raises `ValueError` on more than 4300 digits, which the model accepts, so such a
  component gives its value here and `-1` in the source. The parser's diagnostic
  `print(f'Unable to parse …')` (processData.py:44) is left out; only its `-1` is kept.
- Duration.WellFormedDuration: holds of the source only when every component has at most
  4300 digits; a longer one makes the source return `-1` (see `Text.ParseDecimal`).
- Text.DecimalRoundTrip: is about the modelled `str` and `int()`; Python's own `str(n)`
  raises for `n >= 10**4300`, so the round trip there is limited to smaller numbers.
- Ingest.VideoData.ApplyInfo: the view count's `int()` conversion is modelled as a number
  that is present or absent, so a malformed count does not raise here.
- Ranking.Longest: the source sorts `data` in place. After `data = new_data`
  (analyzeData.py:70) `new_data` still names the list, but nothing reads it after that
  line, so the sort is modelled as a new sorted sequence, which the shortest table then reads as
  the source reads the sorted `data[-20:]` (analyzeData.py:161).
- Text.Lower: only `A` to `Z` are lowered. Python's `str.lower` also lowers non-ASCII
  letters (`É` to `é`, Greek, Cyrillic), and `'İ'.lower()` is two characters long. So a tag
  word `Émission` is counted as `émission` by the source but stays `Émission` here.
- AddTagWordsCounts: its words are lowered on ASCII only (see `Text.Lower`), so for tags
  with non-ASCII capitals the counted words differ from the source's.
- TagCountsSpec: the same ASCII-only lowering applies to the words it counts, and so to
  `Aggregate.Aggregate`, `Report.Expected` and `Report.ReportCounts`.
- The analysis records do not carry the publish date or view count. The analysis parses
  the publish date (analyzeData.py:40) but never uses it. That parse can fail and stop
  the analysis: a public record the catalog never answered keeps the ingest default
  `published = ''` (processData.py:58), which pendulum does not parse. `Report.Analyze`
  accepts such records and does not model this failure.
