# Emergency feed, server database and socket protector: a Dafny model

This project models three parts of a VPN Gate client and proves what they promise.

**The emergency feed** (`emergency_csv_publisher.py`). A run reads the file published last, probes its rows,
merges them by IP with freshly fetched ones, repairs SSTP host names and OpenVPN ports, keeps one row per host
name, drops addresses that are not publicly routable, probes rows whose endpoint is new or changed, ranks and
prunes, fits the file into a byte budget, sorts, renders, reads its own text back and publishes. The published
file is the next run's input. The API's body, the rows of the HTML page, the clock and the network are inputs of
a run.

| file | contents |
|---|---|
| `Text.dfy`, `Words.dfy` | text cleaning and the words it keeps, decimals, split and join, IPv4 and host normal forms, UTF-8 size |
| `Csv.dfy` | Python's csv writer (minimal quoting, LF) and reader automaton, with the reader's field limit |
| `Rows.dfy`, `Readings.dfy`, `Encodings.dfy` | a row, `sanitize_row`, what each kind of cell reads as on its text, UTF-8 and Base64 |
| `Feed.dfy`, `FileRules.dfy` | rendering, `parse_emergency_csv`, what files the program did not write come to |
| `Ordering.dfy`, `Ranking.dfy`, `Budget.dfy` | stable sorting, `rank_key` and `prune`, `fit_budget` |
| `Upsert.dfy`, `Merge.dfy`, `Hosts.dfy` | insertion-ordered dictionaries, the merges, `dedupe_hostnames`, what a host name's key is on the text |
| `Ports.dfy`, `Probe.dfy`, `Stages.dfy` | profile ports, probing, the passes that change the row list in place |
| `ApiFeed.dfy` | reading the API's body: lines, header, csv, comma repair; what comes back from a text the server sends |
| `Publisher.dfy` | one run, from its fetched rows (`Run`) and from the bodies it receives (`RunSources`), as functions and as the program |
| `Pipeline.dfy`, `Republish.dfy`, `History.dfy` | what a run guarantees, the fixpoint, any number of runs |
| `Collisions.dfy`, `Failures.dfy` | rows of one host name and what settling them early loses; the exceptions and refusals a run can end in |
| `Samples.dfy` | small rows that show a case occurs |
| `Repair.dfy` | the repair of API lines split at unquoted commas, in both programs |

**The server database** (`vpngate_collector.py`). Parsers fill a nested record leaf by leaf and tag each leaf
with its source; the records of one server are folded into one, replacing a value only under a stronger owner
and logging every disagreement. The owner of a leaf is the last source to have joined its list, not the source
that supplied the value.

| file | contents |
|---|---|
| `Provenance.dfy` | nested records, authority, the conflict log, the recursive merge |
| `Leaves.dfy` | the recursive merge seen from one leaf |
| `Authority.dfy` | no value is lost; which source decides a leaf, and exactly when |
| `Parsing.dfy` | the blank record and `set_field` |
| `Collector.dfy` | the record as an object merged in place, and `merge_records` |
| `Confidence.dfy` | protocol confidence from independent groups of sources, in hundredths |

**The socket protector** (`softether_jni.c` and its call site). Connecting threads ask the host to protect a socket
through a reference that another thread may replace or release at any moment. Any number of threads may be inside the
upcall: the background connect thread, and the connect thread itself when it opens the first additional connection.
The destruction waits for both, for the first by `pthread_join` and for the second through `connect_mutex`.

| file | contents |
|---|---|
| `Protector.dfy` | every memory, lock and reference operation of every thread as one step; a step faults when memory says so |
| `Lifetime.dfy` | the invariant of every interleaving and the safety results |
| `Marks.dfy` | the `released` flag |
| `Upcalls.dfy` | what a successful upcall proves, a run that faults and a run that leaks |

Methods follow the program's loops and in-place updates and are tied to functions; the lemmas are about those
functions. Numbers are unbounded, ports are bounded to 0..65535 by type.

## What the proofs found

- The self-check refuses a file if and only if a row holds U+FFFD (an API body is decoded with replacement), or there
  is no row at all, which `--min-rows 0` lets through: `Failures.SelfCheckFailsExactly`. Both occur:
  `Failures.ReplacedMessageRefused`, `Failures.EmptyListRefused`.
- A field longer than the csv reader's 131072 characters raises an exception nobody handles, when the previous file is
  read, when the API's body is read, and in the self-check: `Failures.FieldLimitExactly`. In the self-check it takes
  the comma repair: two pieces the reader accepts fold to a message it does not. A run for each case:
  `Failures.LongPreviousFileRaises`, `Failures.LongApiBodyRaises`, `Failures.FoldedMessageRaises`.
- The API parser's return for a missing header is never taken: `ApiFeed.HeaderIsNeverMissing`.
- With `--min-previous-for-ratio` at 0 or below, an empty previous list divides by zero, the very first run
  included: `Failures.DividesByZeroExactly`.
- The size guard after rendering can fire only when no row is kept: `Budget.SizeGuard`.
- The separate host:port pass changes nothing, because every row that reaches it is already sanitized, although
  its comment says otherwise: `Pipeline.NormalizeIsRedundant`.
- Republishing is a fixpoint unless the minimum healthy ratio is set above 1: `Republish.RepublishIsFixpoint`.
- `dedupe_hostnames` goes against the ranking in exactly two cases: it does not look at when a row was last seen, and
  it takes a score of 0 for an unknown one (`r["Score"] or -1`): `Collisions.CollisionAgainstRanking`.
- One row per host is chosen before the public filter and the second check, so a host is lost whenever its strongest
  row is unpublishable. A published server that has just been reached is dropped for a fetched one that cannot be:
  `Collisions.HostSurvivesExactly`, `Collisions.HealthyRowLost`.
- The comma repair gives the written fields back exactly when Message alone holds commas; a comma in Operator
  lands in the wrong field, although both programs' comments name Operator too: `Repair.RepairUndoesSplitting`.
- A leaf the api supplied can end at an html value, in the order api, mirror, html:
  `Parsing.HtmlAfterMirrorReplacesApi`. `Authority.ApiAuthorityExactly` says exactly which orders are safe; the
  order the program uses (mirrors last) is.
- A disagreement between values of one source is logged again each time it is met, under one name, while between two
  sources it is logged once: `Provenance.LoggedOnce`.
- A mirror can raise confidence above what html alone grants, against the policy's comment:
  `Confidence.MirrorPageRaises` says exactly when.
- The hook is compared with null and then read again for the call, without a lock; `nativeDestroy` clears it before it joins,
  so the call can go through a null pointer: `Upcalls.HookClearedBeforeTheCall`. Nothing else can go wrong:
  `Lifetime.EveryRunIsSafe`.
- A first registration whose global reference cannot be created leaks its struct, and nothing else does:
  `Lifetime.LeaksExactly`, `Upcalls.FirstReferenceFails`.
- The `released` flag turns no upcall away: it is set only after the last one has gone: `Marks.ReleasedIsNeverSeen`.
- A failed lookup of `protect` leaves its exception pending: `Upcalls.SuccessMeansProtected`.

## Model

| member | source | states |
|---|---|---|
| Text.CleanTextFixpoint | emergency_csv_publisher.py:119-124 | cleaning leaves exactly the clean texts alone: no zero-width space, every blank a single space, none at the ends |
| Words.BlanksAre | emergency_csv_publisher.py:119-124 | the blanks are the 29 characters of Python's `str.isspace` |
| Words.CleanTextWords | emergency_csv_publisher.py:119-124 | cleaning gives the words of the text in order, joined by single blanks, zero-width spaces dropped |
| Text.NormalizeIpFixpoint | emergency_csv_publisher.py:127-138 | a normalised address is its own normal form and is spelled by its four octets |
| Text.ParseIntText | emergency_csv_publisher.py:174-178 | every written integer is read back |
| Readings.AddressRead | emergency_csv_publisher.py:127-138 | exactly the texts of four numbers up to 255 have a normal form: those numbers in decimal |
| Readings.NumberRead | emergency_csv_publisher.py:174-178 | a number is read with separators anywhere in it |
| Readings.NoNumber | emergency_csv_publisher.py:174-178 | a text with any other character is no number |
| Readings.PortRead | emergency_csv_publisher.py:181-183 | a port column holds the number if it is a port, else 0 |
| Readings.FlagRead | emergency_csv_publisher.py:186-187 | true exactly for true, 1 and yes in any case |
| Readings.CountryRead | emergency_csv_publisher.py:377-378 | two letters in any case give their capitals, anything else nothing |
| Readings.ConfigRead | emergency_csv_publisher.py:379-380 | blanks are dropped from a profile; what is not Base64 is none |
| Readings.TagRead | emergency_csv_publisher.py:381-382 | the two other sources' names are read, anything else is html_parse |
| Readings.LeadingZero | emergency_csv_publisher.py:174-178 | a leading zero changes no number |
| Readings.SuffixRead | emergency_csv_publisher.py:228-249 | a port suffix of up to five digits goes, and is the port if the column has none and it is one; a longer one stays |
| Readings.OnlySuffixesSplit | emergency_csv_publisher.py:225-248 | only a host of plain characters, a colon and up to five digits are split |
| Readings.SuffixIsPort | emergency_csv_publisher.py:245-248 | host:n with no port column gives the host and n |
| Encodings.Utf8SizeIsEncoded | emergency_csv_publisher.py:451-457 | the size is the length of the UTF-8 encoding |
| Encodings.CharDecodes | emergency_csv_publisher.py:451-457 | each character's bytes, as many as the lead byte says, decode to it |
| Encodings.EncodedIsValid | emergency_csv_publisher.py:213-220 | the Base64 encoding of any bytes is accepted |
| Csv.CrlfIsRead | emergency_csv_publisher.py:407 | with CR LF line ends a text is read like with LF |
| Csv.QuotesAreForgiven | emergency_csv_publisher.py:407 | a quote inside an unquoted field, text after a closing quote and a missing closing quote are read as Python's reader does |
| Csv.ReadWrite | emergency_csv_publisher.py:407-456 | writer and reader undo each other for any records exactly when no field exceeds the reader's limit; otherwise the reader fails |
| Rows.SanitizeFixpoint | emergency_csv_publisher.py:354-384 | the fixpoints of sanitizing are exactly the sanitized rows, from typed values as well as from text cells |
| Readings.RowAccepted | emergency_csv_publisher.py:354-376 | a raw row is accepted if and only if its cleaned address is a dotted quad and its host has a name |
| Rows.SanitizeIdempotent | emergency_csv_publisher.py:354-384 | sanitizing any raw input twice is sanitizing it once |
| Rows.SanitizeIsSanitized | emergency_csv_publisher.py:354-384 | every accepted row has clean texts, a canonical IP, a host, valid ports, country, config and tag, and no port left in the SSTP host |
| Feed.ParseEmergencyCsv | emergency_csv_publisher.py:398-440 | the parser's two passes compute the file-level refusals and per-row rejections of the specification |
| Feed.RoundTrip | emergency_csv_publisher.py:398-457 | a rendered file of sanitized rows reads back as the same rows in order with none rejected, exactly when there are rows, no cell holds U+FFFD and none exceeds the field limit; otherwise which refusal follows |
| Feed.ParsedRowsSanitized | emergency_csv_publisher.py:426-440 | accepted and rejected records together are all the records, and accepted ones are sanitized |
| Feed.ParseSanitized | emergency_csv_publisher.py:398-440 | whatever the text, an accepted file has rows and all are sanitized |
| FileRules.HeaderNames | emergency_csv_publisher.py:83-90 | the columns, by name and in order |
| FileRules.FirstLine | emergency_csv_publisher.py:451-457 | every file starts with those names, and every row declares schema 1.0 |
| FileRules.AnyColumnOrder | emergency_csv_publisher.py:408-432 | columns are found by name, in any order and with others between them |
| FileRules.FileOutcome | emergency_csv_publisher.py:407-440 | the outcome for any records under the program's own header: one complete record of another schema refuses the file; otherwise which rows are accepted, in order, and how many are not |
| FileRules.RefusedTexts | emergency_csv_publisher.py:401-404 | a byte order mark in front refuses any text; a text of blanks is refused as empty |
| FileRules.MissingColumnExactly | emergency_csv_publisher.py:411-414 | a file is refused for its columns exactly if one of the four required names is missing |
| FileRules.BlankLineIgnored | emergency_csv_publisher.py:408 | a blank line anywhere changes nothing |
| Ranking.RankOrder | emergency_csv_publisher.py:903-906 | the ranking is a strict weak order in both directions |
| Ranking.RankSeparated | emergency_csv_publisher.py:887-906 | rows with distinct IPs are never tied |
| Ranking.ProtocolsCounted | emergency_csv_publisher.py:876-884 | the count is that of the protocols the row offers, out of six |
| Ranking.IpSeparated | emergency_csv_publisher.py:190-191 | rows with distinct canonical IPs are never tied in file order |
| Ranking.IpLessIsNumeric | emergency_csv_publisher.py:190-191 | the file is in the order of the addresses as numbers |
| Ranking.PruneIsTopSegment | emergency_csv_publisher.py:887-900 | pruning weakest-first and then ranking best-first is the first rows of the whole ranking |
| Ranking.PruneMembers | emergency_csv_publisher.py:887-900 | the kept rows are among the given ones and as many as the cap allows |
| Ranking.PruneDropsTheWeaker | emergency_csv_publisher.py:887-900 | in the row's own columns: no dropped row offers more protocols than a kept one, nor, ties broken in turn, was it sighted later, scored higher, or has the larger IP text |
| Budget.FeedSizeSum | emergency_csv_publisher.py:451-457 | the file's UTF-8 length is its header's plus its rows' |
| Budget.ConfigCost | emergency_csv_publisher.py:935-938 | a config of the Base64 alphabet costs exactly its length: no quoting, one byte a character |
| Budget.SearchPrefix | emergency_csv_publisher.py:922-929 | the binary search returns the longest ranked prefix whose rendering fits |
| Budget.PicksFeasible | emergency_csv_publisher.py:933-939 | the restored configs fit the bytes left over |
| Budget.GreedyIsLexicographicallyGreatest | emergency_csv_publisher.py:933-939 | among all choices of configs that fit, the restored one is greatest in rank order |
| Budget.GreedyIsMaximal | emergency_csv_publisher.py:933-939 | every config left out is longer than the bytes left at the end |
| Budget.FittedSize | emergency_csv_publisher.py:909-941 | the file is exactly the stripped size plus the restored configs, in whatever order the rows are written |
| Budget.SizeGuard | emergency_csv_publisher.py:1077-1078 | the size guard fires if and only if nothing is kept and the header alone is too long |
| Budget.RestoreConfigs | emergency_csv_publisher.py:933-939 | the in-place pass restores exactly the greedy choice and counts it |
| Budget.FitBudget | emergency_csv_publisher.py:909-941 | the rows kept are the fitted top segment; restored plus stripped configs are those present on it |
| Merge.MergeSwap | emergency_csv_publisher.py:793-815 | preferring the other row is the swapped merge preferring the base |
| Merge.MergeAssociative | emergency_csv_publisher.py:793-815 | three rows may be merged in either grouping |
| Merge.MergeColumnwise | emergency_csv_publisher.py:799-806 | one rule for every data column, whatever its type |
| Merge.MergeKeepsValues | emergency_csv_publisher.py:793-815 | a merged value is one of the two and empty only when both are |
| Merge.MergeSeenAndTags | emergency_csv_publisher.py:789-815 | first seen is the least and last seen the greatest known time, tags join with merged on top, flags are the disjunction |
| Merge.MergeSanitized | emergency_csv_publisher.py:793-815 | merging sanitized rows of one server stays sanitized |
| Merge.HtmlOwnsProtocolColumns | emergency_csv_publisher.py:821-835 | api owns the base columns, html the protocol columns, each fills the other's gaps |
| Merge.MergeFreshRows | emergency_csv_publisher.py:821-836 | the dictionary loop computes the specified merge |
| Merge.MergeFreshRowsPerIp | emergency_csv_publisher.py:821-836 | one sanitized row for each IP of either input and for no other |
| Merge.MergeFreshPerServer | emergency_csv_publisher.py:821-836 | a server of one source passes as its last row there; one of both is merged in the html's favour |
| Merge.MergeWithPreviousRows | emergency_csv_publisher.py:839-852 | the dictionary loop computes the specified merge |
| Merge.MergeWithPreviousRowsPerIp | emergency_csv_publisher.py:839-852 | one sanitized row for each IP of either input and for no other |
| Merge.MergedPerServer | emergency_csv_publisher.py:839-852 | with one fresh row per IP exactly these rows result: a previous-only row (the last of its IP) unchanged with its marks, a new one unmarked, a known one merged in favour of the fresh values with the old marks |
| Merge.MergedInOrder | emergency_csv_publisher.py:839-852 | servers are listed where their IP first appears, the previous list's before the new ones |
| Merge.MergeNothingFresh | emergency_csv_publisher.py:839-852 | with nothing fresh the previous list comes back as it is |
| Merge.DedupeHostnameRows | emergency_csv_publisher.py:855-869 | the dictionary loop computes the specified survivors |
| Merge.DedupeKeepsStrongest | emergency_csv_publisher.py:855-869 | exactly the strongest row of every host survives, in whatever order collisions are met |
| Merge.DedupeShape | emergency_csv_publisher.py:855-869 | survivors have distinct hosts and come from the input |
| Merge.DedupeDistinct | emergency_csv_publisher.py:855-869 | rows with distinct hosts all survive in order |
| Hosts.DecoratedHost | emergency_csv_publisher.py:166-171 | a plain name's key is its lower case, letter by letter; a scheme, a port and trailing dots do not change it |
| Hosts.SameKeyExactly | emergency_csv_publisher.py:166-171 | two plain names share a key if and only if they agree up to case |
| Hosts.DedupeByName | emergency_csv_publisher.py:855-869 | a row survives if and only if no row of its name, in whatever case, is stronger |
| Ports.ConfigTransportPorts | emergency_csv_publisher.py:285-321 | the two loops compute the specified ports |
| Ports.FirstPortIsFirst | emergency_csv_publisher.py:314-321 | each transport's port is that of its first remote line with a usable port, and none only if there is none |
| Ports.ConfigDials | emergency_csv_publisher.py:285-321 | on the profile's lines: the port is that of the first remote line with a usable port that names the transport itself, or leaves it to `proto` lines that all name it; none only if there is no such line |
| Ports.EnforceByLines | emergency_csv_publisher.py:324-351 | each column becomes the port of that line and is kept if there is none; nothing else changes |
| Ports.EnforceAgrees | emergency_csv_publisher.py:324-351 | afterwards the columns agree with the profile; a row that agreed is unchanged, no port is cleared, the row stays sanitized or not as it was |
| Ports.NormalizeSstpSplits | emergency_csv_publisher.py:228-272 | exactly the rows without a port suffix are unchanged; idempotent; an explicit port wins; nothing changes on sanitized rows |
| Probe.EndpointIsFirstListener | emergency_csv_publisher.py:581-589 | the endpoint is the first of the SoftEther, OpenVPN and SSTP ports that is set, 443 for SSTP support without one, and none only if there is no listener |
| Probe.CheckBacks | emergency_csv_publisher.py:603-638 | after a check every healthy row is backed by a successful probe at the endpoint it has now; an unchanged endpoint keeps its verdict, no endpoint means unhealthy |
| Probe.ProbeCount | emergency_csv_publisher.py:606-628 | the probes are as many as the set of positions that need one has elements |
| Stages.RowList.HealthCheck | emergency_csv_publisher.py:603-638 | in place and with answers in any order, the list becomes the checked list, and the probes made on the way are a permutation of the specified ones |
| Stages.OnlyHealthyStamped | emergency_csv_publisher.py:1031-1033 | stamping changes the time of a healthy row and nothing else |
| Stages.RowList.StampHealthy | emergency_csv_publisher.py:1031-1033 | in place, healthy rows and no others get the run's start |
| Stages.RowList.NormalizeSstp | emergency_csv_publisher.py:252-272 | in place, every row becomes its split form |
| Stages.RowList.EnforceConfigPorts | emergency_csv_publisher.py:324-351 | in place, every row becomes its enforced form |
| ApiFeed.ParseApiCsv | emergency_csv_publisher.py:645-683 | the loops over lines and records compute the specified rows and count, or the reader's exception |
| ApiFeed.FetchFreshRows | emergency_csv_publisher.py:763-772 | an absent body counts as no rows, an exception passes on, otherwise both sources merged |
| ApiFeed.ApiRowsShape | emergency_csv_publisher.py:665-683 | every line that is neither blank nor the trailer is accepted or counted; accepted rows are sanitized and carry the time and the source |
| ApiFeed.LinesAreCut | emergency_csv_publisher.py:651 | a text is cut at each of the ten line ends of Python's splitlines and nowhere else, CR LF once |
| ApiFeed.EachLineCounts | emergency_csv_publisher.py:665-683 | an empty, blank or starred line anywhere changes nothing; any other makes one row or counts as bad, a short one as bad |
| ApiFeed.HeaderSpelled | emergency_csv_publisher.py:652-653 | the header line is known in any case, behind any number of #, with blanks around it, and by nothing else |
| ApiFeed.HeaderIsNeverMissing | emergency_csv_publisher.py:652-664 | whenever a header line is found, the reader's first record is not empty |
| ApiFeed.ApiTextRecovered | emergency_csv_publisher.py:645-683 | of a whole text of lines with commas in Message alone the verdicts are those on the fields the lines were written with |
| ApiFeed.SentRowsReturn | emergency_csv_publisher.py:645-683 | sanitized servers sent as such a text are the rows read, in order, none lost or counted, as far as the API's columns go |
| Publisher.LoadPreviousRows | emergency_csv_publisher.py:548-574 | a missing or refused file counts as empty; a field beyond the limit is an exception |
| Publisher.PublishRows | emergency_csv_publisher.py:1063-1088 | pruning, budget, sort, rendering and self-check end in the specified result or refusal |
| Publisher.RunOnce | emergency_csv_publisher.py:1012-1088 | the whole run from the bodies it receives, with its in-place passes, computes the function the results below are about |
| Pipeline.FetchedRows | emergency_csv_publisher.py:763-836 | whatever text the API sends, the fetched rows are sanitized, one for each IP of either source and no other |
| Pipeline.NormalizeIsRedundant | emergency_csv_publisher.py:1042-1044 | on the merged rows the host:port pass changes nothing |
| Pipeline.MergeStageGood | emergency_csv_publisher.py:1041-1051 | after stage 4 the rows are sanitized, routable, agree with their profiles, one per IP and one per host |
| Pipeline.CandidatesWereProbed | emergency_csv_publisher.py:1016-1060 | with health checks on, every healthy row was reached in this run at the endpoint it has after all repairs |
| Pipeline.OnlyChangedEndpointsAreProbed | emergency_csv_publisher.py:603-614 | the second check probes exactly the rows whose endpoint differs from the one probed first |
| Pipeline.CandidatesShape | emergency_csv_publisher.py:1041-1060 | every row that may be published is sanitized, routable, consistent, stamped and has an endpoint; no two share an IP or a host |
| Pipeline.PublishOutcome | emergency_csv_publisher.py:1063-1085 | for every list of healthy rows which refusal or which file follows; the self-check refuses a non-empty list only for U+FFFD or an oversized field |
| Pipeline.KeptIsTopSegment | emergency_csv_publisher.py:887-929 | pruning and budget together keep the first k rows of the ranking, k the largest within the cap whose stripped rendering fits |
| Pipeline.WrittenOrderIndependent | emergency_csv_publisher.py:1064-1073 | the file does not depend on the order of the healthy rows |
| Pipeline.PublishedFile | emergency_csv_publisher.py:1012-1088 | every published file is within all limits, sorted, reads back as exactly its rows, and every row is valid, routable, consistent and stamped |
| Pipeline.PublishedWereProbed | emergency_csv_publisher.py:1012-1088 | with health checks on, every published row was reached in the same run at exactly the endpoint it is published with |
| Republish.GreedyIsStable | emergency_csv_publisher.py:933-939 | fitted again, what greedy restored is restored again, nothing more and nothing less |
| Republish.SecondCandidates | emergency_csv_publisher.py:1016-1060 | the published rows pass all stages up to pruning unchanged but for the time stamp |
| Republish.RewrittenRows | emergency_csv_publisher.py:1063-1073 | published rows, restamped, pruned, fitted and sorted again are themselves |
| Republish.RepublishIsFixpoint | emergency_csv_publisher.py:1012-1088 | a run on its own file with nothing fresh, every probe succeeding and a start of equal decimal width publishes the same rows, configs included, with the new stamp, unless the ratio limit exceeds 1 |
| History.RunKeepsFirstSeen | emergency_csv_publisher.py:1012-1088 | one run keeps every first sighting that was set, stamps every row and leaves a file the next run reads in full |
| History.HistoryTimely | emergency_csv_publisher.py:1012-1088 | after any number of runs, each with its own command line and any API body, the file is readable, has one row per IP, no sighting in the future, and every row carries the start of the last run that published; before one did, the file is unchanged |
| History.FirstSeenNeverChanges | emergency_csv_publisher.py:807-810 | over any number of runs, each with its own command line and any API body, and with a clock that does not go back, a listed server's first sighting never changes once set |
| History.FirstSeenFromNothing | emergency_csv_publisher.py:807-810 | the same in a history that starts without a file, from the run that lists the server on |
| History.FetchedIsNow | emergency_csv_publisher.py:645-836 | whatever text the API sends, what a run fetches is sanitized, one row per IP, with the run's start as first sighting |
| Collisions.CollisionAgainstRanking | emergency_csv_publisher.py:855-906 | a survivor of a collision ranks below the row it displaced if and only if protocol counts are equal and it was seen longer ago with the score ahead, or the other's score is 0, its own -1 or unknown, and its IP the larger |
| Collisions.OrdersAgreeExactly | emergency_csv_publisher.py:855-906 | on rows with different IPs the two orders agree if and only if neither case occurs, either way round |
| Collisions.StaleSurvivorOccurs | emergency_csv_publisher.py:861-863 | two sanitized rows of one host with positive scores where the stale one survives |
| Collisions.ZeroLosesToUnknown | emergency_csv_publisher.py:862-863 | two sanitized rows of one host where a score of 0 loses to an unknown one |
| Collisions.MergedAreStrongest | emergency_csv_publisher.py:1041-1056 | the second check sees exactly the strongest merged row of each host, and that only if it is routable |
| Collisions.HostSurvivesExactly | emergency_csv_publisher.py:1041-1060 | a host may be published if and only if its strongest merged row is routable and healthy at the second check |
| Collisions.HealthyRowLost | emergency_csv_publisher.py:1041-1060 | a known server and a stronger fetched one of its host that, repaired, is not routable, has no endpoint or is not reached: nothing of the host is left |
| Collisions.HealthyRowsAreLost | emergency_csv_publisher.py:1041-1060 | such a pair, both routable, the known server just reached |
| Failures.DividesByZeroExactly | emergency_csv_publisher.py:1024-1026 | a run divides by zero if and only if the previous list is empty, the threshold is not positive and checks are on |
| Failures.FirstRunDividesByZero | emergency_csv_publisher.py:1017-1026 | under such a threshold the first run of all does, whatever the sources would send |
| Failures.RefusedFileIsNoFile | emergency_csv_publisher.py:568-574 | a previous file the parser refuses makes no difference to having none |
| Failures.LowHealthExactly | emergency_csv_publisher.py:1024-1030 | a run is refused for its health if and only if checks are on and not overruled, there are enough previous rows, and the share whose listener answered is below the limit |
| Failures.NothingToPublishExactly | emergency_csv_publisher.py:1037-1039 | a run has nothing to publish if and only if it gets to fetch and neither the previous file nor a source has a row |
| Failures.FieldLimitExactly | emergency_csv_publisher.py:1017-1079 | the csv reader's exception ends a run if and only if the previous file holds an oversized field, or the run gets to fetch an API body that does, or its own file reaches the self-check with one and without U+FFFD |
| Failures.SelfCheckFailsExactly | emergency_csv_publisher.py:1063-1084 | the self-check refuses a run if and only if it gets to render a file that holds U+FFFD, or has no row and a header within the limit |
| Failures.LongPreviousFileRaises | emergency_csv_publisher.py:407 | a previous file of one long word raises |
| Failures.LongApiBodyRaises | emergency_csv_publisher.py:661-665 | an API body with one long word raises in a first run |
| Failures.OneFreshRun | emergency_csv_publisher.py:1012-1085 | how the first run on one publishable fresh row ends, for every text of the row |
| Failures.ReplacedMessageRefused | emergency_csv_publisher.py:767-1084 | an API body with U+FFFD as a message, and a first run it stops |
| Failures.FoldedMessageRaises | emergency_csv_publisher.py:670-1079 | an API body whose fields the reader accepts, folded to a message over the limit, and a first run it ends in an exception |
| Failures.EmptyListRefused | emergency_csv_publisher.py:1066-1084 | with a minimum of no rows, a first run on a server without a listener that the self-check refuses |
| Repair.RepairsAgree | emergency_csv_publisher.py:670-674 | the two programs' repairs agree exactly on lines of at least fifteen fields |
| Repair.ShortLinesArePadded | vpngate_collector.py:511-524 | a short line keeps its fields and is filled up with empty ones |
| Repair.FoldKeepsText | vpngate_collector.py:511-518 | the fifteen repaired fields re-join to the original line |
| Repair.RepairUndoesSplitting | emergency_csv_publisher.py:649-674 | splitting and repairing gives the fields back if and only if Message alone holds commas |
| Repair.BareLineSplits | emergency_csv_publisher.py:661-665 | on a line without quotes or line breaks the reader's fields are the pieces between commas |
| Leaves.MergeKidsAt | vpngate_collector.py:2192-2322 | the recursive walk treats every leaf on its own: value and log entries of each path follow from that path alone, and shapes are kept |
| Authority.LeavesAreIndependent | vpngate_collector.py:2192-2340 | the same for a whole merge, with the sources merged after the values |
| Authority.NoValueIsLost | vpngate_collector.py:2135-2322 | for any records of like shape in any order, with any sources, the scalars supplied for a leaf, of any type, are exactly its final one and those in its conflict entries; nothing is only null, the empty text, zero and false |
| Authority.ListsAreJoined | vpngate_collector.py:2252-2262 | a merged list keeps the old items in place and gains exactly the new ones, each once |
| Authority.TwoPagesDisagree | vpngate_collector.py:2161-2318 | two pages that differ about a leaf leave one entry, each value under its page, and the stronger page's value stands |
| Provenance.LoggedOnce | vpngate_collector.py:2161-2189 | under two names the same disagreement is logged once, under one name each time |
| Authority.MergedLeafIsHeld | vpngate_collector.py:2264-2336 | on parsed records a leaf's value and source list follow from who supplied what in which order |
| Authority.ApiHoldsUnlessDisplaced | vpngate_collector.py:2288-2311 | unless displaced, a leaf the api supplied ends at a value of the api |
| Authority.ApiAuthorityExactly | vpngate_collector.py:2288-2311 | an order of sources guarantees the api's authority, for all values, if and only if at no point an html record fills the leaf while a mirror joined its list last, after the api's last word |
| Authority.HtmlDisplacesApi | vpngate_collector.py:2288-2311 | leaf by leaf, the order api, mirror, html ends at the html value |
| Authority.MirrorsLastIsSafe | vpngate_collector.py:2155-2158 | with mirrors last the api is never displaced |
| Authority.AuthorityDecides | vpngate_collector.py:2264-2338 | api and html in any interleaving, then mirrors: an api value if there was one, else the first html value, else the first mirror's |
| Parsing.NewServerIsBlank | vpngate_collector.py:200-284 | the blank record (but for its constants) supplies no value at any path and fits the kinds of its own fields |
| Parsing.SetLeafAt | vpngate_collector.py:304-312 | setting a leaf changes that leaf only, and only if it was empty |
| Parsing.ParsersTagWhatTheyFill | vpngate_collector.py:287-319 | after any calls of one parser each leaf holds its first non-empty offer and exactly the filled leaves name the source |
| Parsing.EveryOrderOccurs | vpngate_collector.py:287-319 | every order of sources filling a server's score, with any values, is that of some parsed records |
| Parsing.HtmlAfterMirrorReplacesApi | vpngate_collector.py:2288-2311 | merging an api, a mirror and an html record of one server, in this order, leaves the html score, whatever the three values |
| Provenance.AddSourceAscends | vpngate_collector.py:182-197 | an ascending list stays ascending, gains exactly the source if it names one, and is the only ascending list with those members |
| Collector.AppendItems | vpngate_collector.py:2255-2259 | the list loop appends exactly the items not yet listed |
| Collector.ServerRecord.LogConflict | vpngate_collector.py:2161-2189 | in place, the disagreement is appended unless exactly it is logged |
| Collector.ServerRecord.Tag | vpngate_collector.py:182-197 | in place, an ascending list stays ascending, a new source is added once, and a known or empty one changes nothing |
| Collector.ServerRecord.MergeDict | vpngate_collector.py:2206-2322 | one level of the walk computes the specified dictionary and log |
| Collector.ServerRecord.Merge | vpngate_collector.py:2192-2340 | in place, the record becomes the specified merge |
| Collector.MergedSources | vpngate_collector.py:182-197 | a server lists every source that contributed to it, once, in ascending order |
| Collector.MergeRecords | vpngate_collector.py:2343-2412 | the loop leaves the servers of the database; keyed records are servers plus duplicates |
| Collector.MergeRecordsIsLocal | vpngate_collector.py:2343-2395 | each server is the in-order merge of the records with its key, and of no others |
| Collector.ServersInOrder | vpngate_collector.py:2343-2395 | servers stand in the order in which their keys first appear |
| Collector.SharedServerExactly | vpngate_collector.py:2349-2391 | two records are merged into one server if and only if they give the same valid address, or neither does and their hosts agree, or one's host is spelled like the other's address |
| Collector.ServersDoNotInterfere | vpngate_collector.py:2343-2395 | permuting records of different keys changes no server |
| Collector.EveryInputValueIsKept | vpngate_collector.py:2192-2395 | every scalar of every keyed record, unless null, empty, zero or false, is its server's or in that server's conflict log |
| Collector.ServersFollowAuthority | vpngate_collector.py:2192-2395 | with pages read mirrors last, every leaf of every server follows the authority order over that server's own records |
| Confidence.MergedGroups | vpngate_collector.py:2326-2336 | a merged record's groups for a protocol are exactly its inputs' groups |
| Confidence.MergeAllGroups | vpngate_collector.py:2480-2499 | the same for any number of records |
| Confidence.ScoreScale | vpngate_collector.py:2427-2477 | the score of no group, of each kind of single group, of any two and of any three or more |
| Confidence.ScoreIsMonotone | vpngate_collector.py:2458-2477 | more groups never score less |
| Confidence.MergingNeverLowersConfidence | vpngate_collector.py:2458-2511 | merging a record lowers the confidence in no protocol |
| Confidence.OrderDoesNotMatter | vpngate_collector.py:2480-2511 | the merging order of the records does not matter |
| Confidence.MirrorsCountOnce | vpngate_collector.py:2426-2442 | replacing any numbered mirrors by any others changes no groups |
| Confidence.MirrorsAlone | vpngate_collector.py:2426-2477 | a protocol that mirrors alone reported, however many, scores 35 |
| Confidence.GroupsOfLeaves | vpngate_collector.py:2480-2499 | a protocol's groups are those of the sources at leaves below protocols and its name |
| Provenance.GroupOfMirrors | vpngate_collector.py:2426-2442 | the mirrors' group is that of mirror_ and digits and of its own name; any other source is its own group |
| Provenance.NumberedMirror | vpngate_collector.py:2426-2442 | every numbered mirror is in that group |
| Provenance.GroupIgnoresSpelling | vpngate_collector.py:2435-2442 | case and surrounding blanks do not matter |
| Confidence.WhenAMirrorRaises | vpngate_collector.py:2458-2477 | a mirror raises the score if and only if it is a new group and fewer than three had reported |
| Confidence.MirrorPageRaises | vpngate_collector.py:2326-2511 | merging a mirror's record that fills a leaf of the protocol raises its confidence if and only if no mirror and fewer than three groups had reported it |
| Lifetime.WorkerStepKeeps | SoftEtherClient/src/main/cpp/jni/softether_jni.c:53-110 | every step of any upcalling thread keeps the invariant and faults exactly when a cleared hook is read for the call |
| Lifetime.OwnerSetStepKeeps | SoftEtherClient/src/main/cpp/jni/softether_jni.c:189-240 | every step of a registration keeps the invariant and never faults; which one leaks |
| Lifetime.OwnerDestroyStepKeeps | SoftEtherClient/src/main/cpp/jni/softether_jni.c:118-132 | every step of the destruction keeps the invariant and never faults |
| Lifetime.EveryRunIsSafe | SoftEtherClient/src/main/cpp/jni/softether_jni.c:31-47 | in every interleaving of any number of upcalls no step touches a freed struct or dead mutex, accesses a guarded field without the lock or uses a deleted reference; the null hook is the only fault |
| Lifetime.WhenTheHookCrashes | SoftEtherClient/src/main/cpp/softether-core/src/proto/softether_protocol.c:4223-4224 | a step faults exactly when the worker reads a cleared hook for the call, and then the owner has cleared it and not passed its join |
| Lifetime.RegisteringNeverCrashes | SoftEtherClient/src/main/cpp/jni/softether_jni.c:189-240 | until the connection is destroyed nothing faults, whatever registrations and upcalls do |
| Lifetime.ReferencesAreConserved | SoftEtherClient/src/main/cpp/jni/softether_jni.c:118-132 | at every moment the live global references are one for each live struct with a service, and those in the owner's hands |
| Lifetime.UpcallsBalance | SoftEtherClient/src/main/cpp/jni/softether_jni.c:56-110 | however an upcall ends, no local reference remains and the thread is attached exactly if it was |
| Lifetime.CalledObjectIsAlive | SoftEtherClient/src/main/cpp/jni/softether_jni.c:71-104 | the object whose method is called is held by a live local reference |
| Lifetime.NothingOutlivesDestroy | SoftEtherClient/src/main/cpp/jni/softether_jni.c:157-182 | after destruction there is no global reference, hook or upcall, and no struct but leaked ones |
| Lifetime.LeaksExactly | SoftEtherClient/src/main/cpp/jni/softether_jni.c:203-222 | a run leaks if and only if it contains a failing reference for a struct the connection does not know yet |
| Upcalls.SuccessMeansProtected | SoftEtherClient/src/main/cpp/jni/softether_jni.c:71-110 | in every run an upcall reports success if and only if protect returned true without an exception on the object registered when the lock was held; an exception is pending only after a failed lookup |
| Upcalls.RegisteredServiceProtects | SoftEtherClient/src/main/cpp/jni/softether_jni.c:53-110 | a run in which a service is registered, taken and answers yes, and the upcall reports success |
| Marks.ReleasedIsNeverSeen | SoftEtherClient/src/main/cpp/jni/softether_jni.c:71-132 | in every run a struct is flagged as released exactly from its marking to its end, and no upcall that reads the flag finds it set |
| Upcalls.HookClearedBeforeTheCall | SoftEtherClient/src/main/cpp/softether-core/src/proto/softether_protocol.c:4223-4224 | a run in which the hook is cleared between the comparison and the call |
| Upcalls.FirstReferenceFails | SoftEtherClient/src/main/cpp/jni/softether_jni.c:204-222 | a run in which a struct outlives the destruction |

## Left out

- Authority.NoValueIsLost: for records whose dictionaries, lists and scalars sit at the same paths, as all parsers' records do; where a dictionary meets a scalar the program drops the scalar unlogged.
- Fetching over HTTP, sockets, thread pools, git, atomic file writes, logging, command line and configuration files: the decoded API body, the HTML page's rows, the clock and the network's answers are inputs.
- The stages after the file is written (`emergency_csv_publisher.py:1090-1113`): only files, git and the network.
- `html_record_to_row`: a mapping of names before `sanitize_row`; the results hold for every list of sanitized rows of the HTML page, those about first sightings for rows stamped with the run's start, as that function stamps them.
- HTML parsing and its regular expressions: a parser is any sequence of `set_field` calls with one source.
- The `configs` list that the api parser appends to directly: it carries no field source and no scalar, and the results hold whatever lists a record has.
- Parsing.NewServerIsBlank: without the leaves `valid` and `schemaVersion`, which are the same constants in every parsed record and name no source; a merge skips the second and finds the first always equal, so it never changes or logs them.
- Incoming records that already carry `conflicts` or `_owners`: no parser makes them.
- Collector.MergeRecords: that the records read stay unmodified (the deep copies at `vpngate_collector.py:2380-2391`), because records are values here; only the merged record is an object.
- Row dictionaries shared between lists: rows are values, so an update of one list's row is not seen through another list; the in-place passes update the list they are given.
- The `_html` flag of a row: written and merged, never read.
- Unicode case and digits beyond ASCII, NUL in the csv reader, carriage returns in csv fields (no sanitized cell has one), and Python's limit on digits in `int`.
- `int()` accepting underscores and blanks in a profile's port, and decoding a profile: the profile is given as lines of words.
- The tables of publicly routable addresses: `isPublic` is a parameter.
- Base64 validity is the canonical alphabet with padding of section 4 of RFC 4648; Python's decoder also accepts some surplus data after padding.
- `valid_ip` and the collector's `normalize_host`: parameters of the key, no result depends on them.
- Python's equality of `True`, `1` and `1.0` in one leaf: no leaf of a record holds both flags and numbers.
- A negative `--max-servers`: the cap is a natural number.
- Quality scores, display, reports and JSON export: bounded case tables.
- `nativeSetSocketProtector` with a null argument or before the JVM is known: returns before it touches anything.
- Two threads calling into one handle at once to register or destroy, a connect started after `nativeDestroy` has waited for the running ones, and a connect that has not yet left the disconnected state when it begins: the host serialises the first and stops the others. `softether_destroy` joins the background thread (`softether_protocol.c:1096-1101`) and, through `softether_disconnect`, waits for `connect_mutex`, which a connect holds throughout (`softether_protocol.c:1107`, `3302-3308`, `3321`); the model has it wait for every thread inside the upcall.
- The rest of the protocol core in `softether_protocol.c` (the connect sequence, NAT traversal, keep-alives, data blocks) and the protocols that only headers describe (RUDP, PACK); of that file only the call of the hook, its registration and the two waits are modelled.
- The remaining native functions: string marshalling and bounds checks around them.
