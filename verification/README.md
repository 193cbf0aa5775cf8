# Verified models of ctx

ctx keeps a searchable history of coding-agent sessions. This project models, in Dafny 4.11, the parts of
ctx whose correctness is hard to see from one function at a time, and proves what they are for. It verifies
with `dafny verify dfyconfig.toml`.

| part | modules |
|---|---|
| Configuration: a line editor that must agree with a parser | `Text`, `ConfigParser`, `ConfigEditor`, `ConfigLaws`, `ConfigTheorems`, `ConfigQuotes`, `AppConfig`, `ConfigValues` |
| Hook sync: pending markers, a file lock, coalescing workers | `HookSync` (every interleaving), `HookRunner` (one worker, call by call) |
| Search: the fast event scan | `SearchModel`, `Filters`, `Clusters`, `MatchCounts`, `Ranks`, `FastSearch`, `FastLaws`, `FilterLaws` |
| Search: hybrid fusion | `Sorting`, `Hybrid`, `HybridLaws`, `HybridImportance`, `HybridTruth` |
| Search: merging several terms | `TermMerge`, `MergeLaws` |
| Search: the record scan | `Scoring`, `RecordSearch`, `RecordLaws`, `RecordOrder` |
| Search: from the query to the packet, over all its paths | `SearchEngine`, `EngineLaws` |
| MCP server: bounded line framing, handshake | `Framing`, `McpServer` |
| Capture spool | `SpoolNames`, `Spool` (every interleaving), `SpoolInbox` (one process and its summaries), `SpoolArchive`, `SpoolLaws` |
| Printers and selectors | `ShellQuote`, `Chunker`, `LiteTranscript` |

## How it is modelled

* The two file protocols are state machines: a directory, any number of processes, each with its own
  program counter, and one action per file-system step. A property over `Reachable` states holds for every
  interleaving. Histories (what was requested, claimed, written, imported) are part of the state.
* Loops of the program are methods with the same loops, early exits and budgets. Each is proved against a
  description that knows no pages, buffers or indexes: the scan of a list up to a bound, the list folded by
  key, the pieces between line feeds, the list of definitions of a file.
* Ranks and scores are reals, identifiers opaque values, the store's answers slices of one fixed list.
* What depends on code outside the model is a parameter: what an import command or the store answers, the
  JSON parser, the tool calls.

## Where the code and its description differ, or a natural claim fails

* The repository calls the hook worker's lock non-blocking; the worker waits for it
  (scripts/ctx-remote-hook-sync.py:160). The model waits.
* Setting `daemon.enabled` fails on a valid file that defines the key outside the first `[daemon]` block,
  for example by its dotted name: the edit would define it twice. `EditCommutesWithParse` and
  `EditedConfig` give the exact condition, `DottedKeyRefused` a file.
* The record search without filters looks at one record more than the limit and then reports that there is
  no more, although later records may match. `UnfilteredGuarantee` says when the report can be relied on:
  exactly when fewer records came back than were fetched for; `UnfilteredCanMiss` shows a case where it misleads.
* Merging results by session can change the merge key of a result if a session has the id of a record;
  `MergeKeepsKey` is the exact condition, `MergeKeyCanDrift` a case with two terms.
* Clustering in the hybrid search raises a result's count without renewing its importance. Normalisation
  renews it, unless nothing on the lists scores: `ImportanceUpToDate` is the exact condition on the lists,
  the weight and the mode, `ImportanceCanBeStale` a case.
* A spool file that fails to import keeps what its envelopes before the failing one stored:
  `ImportProcessingFile` says exactly when that is nothing, `FailedFileKeepsItsStart` shows a case.
* Some errors carry no id at all, because null members are pruned (crates/ctx-cli/src/output.rs:47-66), where
  section 5 of the JSON-RPC 2.0 specification asks for a null: the answers to messages that are no objects,
  have no id or a null one, or are otherwise well-formed calls with an array or object for an id. That is
  exact (`AnswerLosesId`); `NullIdIsPruned` shows a case, and a message that keeps its odd id.

## Model

| member | source | states |
|---|---|---|
| ConfigParser.StripComment | crates/ctx-cli/src/config.rs:329-360 | the quote and escape flags cut the line at the first number sign outside quotes |
| ConfigParser.CommentStart | crates/ctx-cli/src/config.rs:329-360 | the cut is at a number sign outside quotes, and none lies before it |
| ConfigQuotes.BareIffClosed | crates/ctx-cli/src/config.rs:329-360 | the end of a text is outside quotes iff the text is made of whole quotations, single or double with escapes, and characters that are no quotes |
| ConfigQuotes.UncommentedMeans | crates/ctx-cli/src/config.rs:329-360 | kept of a line is all before its first number sign behind such a text |
| ConfigQuotes.LineMeans | crates/ctx-cli/src/config.rs:288-313 | a cleaned line is blank, a header iff it is a name in brackets, a definition iff it is a key that is not blank, its first equals sign and a value |
| ConfigParser.ParseTomlSubset | crates/ctx-cli/src/config.rs:284-327 | the line loop, with its errors, returns what the list of classified lines stands for |
| ConfigParser.ParseMeaning | crates/ctx-cli/src/config.rs:284-327 | a text parses iff every line is well formed and no full key is defined twice; the map is that of its definitions |
| ConfigParser.LineNumbersPointAtDefinitions | crates/ctx-cli/src/config.rs:284-327 | the line kept with a value is the line that defines its key, and no other line does |
| ConfigParser.CleanStripCr | crates/ctx-cli/src/config.rs:287-288 | a carriage return left at the end of a line changes nothing |
| ConfigEditor.FindPlace | crates/ctx-cli/src/config.rs:226-251 | the pass with section tracking and the place to insert finds the key in the first block of its section, else the end of that block, else nothing |
| ConfigEditor.SetTomlBool | crates/ctx-cli/src/config.rs:226-276 | the text built by splitting, editing in place and joining is that of the place found |
| ConfigTheorems.JoinThenSplit | crates/ctx-cli/src/config.rs:268-276 | joining lines, ending them with a line feed and splitting again keeps what every line means, up to one blank line at the end |
| ConfigLaws.LocatedLine | crates/ctx-cli/src/config.rs:233-251 | the line replaced carries the key and lies in the first block of the section; a key inserted is absent from that block |
| ConfigLaws.EditedDefs | crates/ctx-cli/src/config.rs:226-269 | the edit changes one definition or adds one; keys stay distinct iff it replaces a line or the key was undefined |
| ConfigTheorems.ReplacesIffInFirstBlock | crates/ctx-cli/src/config.rs:233-251 | the editor replaces a line iff the parser found the key, at a line of the first block of the section |
| ConfigTheorems.EditCommutesWithParse | crates/ctx-cli/src/config.rs:226-327 | for every text that parses: the edited text parses iff the key is not defined outside the first block of its section, and then to the same raw values with just that key set |
| AppConfig.EditedConfig | crates/ctx-cli/src/config.rs:82-135 | a valid file edited is valid iff the key is not defined outside the first `[daemon]` block, and then stands for the same configuration with the daemon switched |
| AppConfig.DottedKeyRefused | crates/ctx-cli/src/config.rs:202-224 | a valid file no edit of which is valid |
| ConfigValues.LoadMeans | crates/ctx-cli/src/config.rs:100-135 | each setting is that of its own key, read as a switch, a quoted text or a number, or the default if the key is absent; no other key is accepted; seconds win over hours |
| ConfigValues.ApplyValues | crates/ctx-cli/src/config.rs:100-135 | the loop that applies the values in the order of the map yields the configuration as a whole, or fails iff some value is wrong |
| ConfigValues.DecimalReadsBack | crates/ctx-cli/src/config.rs:389-395 | a number written in decimal is read back iff it fits 64 bits |
| AppConfig.ConfigFile.SetDaemonEnabled | crates/ctx-cli/src/config.rs:202-224 | writes iff the result is valid, and then the configuration read back differs in that switch only; otherwise the file is as it was |
| HookSync.Inductive | scripts/ctx-remote-hook-sync.py:78-195 | every step of every process keeps the invariant on lock, listings, markers and histories |
| HookSync.NoLostRequest | scripts/ctx-remote-hook-sync.py:78-100 | when no process is left nothing is pending and every requested source had an import that began after its latest request |
| HookSync.PendingHasWorkers | scripts/ctx-remote-hook-sync.py:159-182 | pending markers never outnumber the live processes that have claimed nothing |
| HookSync.OneImportAtATime | scripts/ctx-remote-hook-sync.py:44-54 | no two imports overlap, nor an import and a locked command |
| HookSync.FailureMarkerTruth | scripts/ctx-remote-hook-sync.py:140-156 | the failure marker of a source exists iff its import that ended last has failed, except between that end and the next step of the lock holder; so for every source while the lock is free |
| HookSync.RenamesSucceed | scripts/ctx-remote-hook-sync.py:163-181 | a listed marker is still there when its turn comes, a working file when it is moved back |
| HookSync.NoDeadlock | scripts/ctx-remote-hook-sync.py:44-54 | while a process is left, some process can take a step |
| HookSync.WorkFalls | scripts/ctx-remote-hook-sync.py:159-182 | every step of a process that has arrived lowers one measure of the work left |
| HookSync.EveryRequestIsServed | scripts/ctx-remote-hook-sync.py:78-182 | under any scheduling a run without arrivals is bounded, and where it ends every request has been served |
| HookRunner.Runner.RunTarget | scripts/ctx-remote-hook-sync.py:103-137 | it succeeds iff one of its calls exits with 0; at most three calls, the last one the first that succeeds, and three if none does |
| HookRunner.Runner.RunImport | scripts/ctx-remote-hook-sync.py:140-156 | it succeeds iff each target that exists had a call that exited with 0, and otherwise one had three calls that failed; the failure marker is cleared iff it succeeds |
| HookRunner.Runner.RunMarkers | scripts/ctx-remote-hook-sync.py:164-180 | the listed markers are imported in their order until one fails, those not reached stay pending, and the log is the truth about the calls made |
| HookRunner.Runner.Worker | scripts/ctx-remote-hook-sync.py:159-182 | the log says an import succeeded iff each target of its source had a call that exited with 0; every marker pending at the start is pending still, was so imported or is marked as failed, with exit code 0 it was so imported; a request made during an import is pending still or had a later import; if no call exits with 0 the exit code is 1, the first source with a target is marked as failed and none with a target is lost; at most 24 calls |
| HookRunner.SucceedsIffAllServed | scripts/ctx-remote-hook-sync.py:140-156 | an import that ran its targets in order up to one that fails succeeds iff each target had a call that exited with 0 |
| HookRunner.EndsAtFirstTarget | scripts/ctx-remote-hook-sync.py:159-182 | when no call exits with 0 the log ends, with a failure, at the first source of the listing that has a target |
| HookRunner.LoadOfListing | scripts/ctx-remote-hook-sync.py:19-29 | one listing of the three sources leads to at most four targets |
| Filters.NoFiltersAcceptAll | crates/ctx-history-search/src/filters.rs:354-365 | without filters every hit is accepted, whatever its fields |
| FilterLaws.NoFiltersMeans | crates/ctx-history-search/src/filters.rs:354-365 | there are filters iff anything but the sources is set, or a source that is not blank |
| FilterLaws.FiltersMean | crates/ctx-history-search/src/filters.rs:9-60 | a hit passes iff it meets each filter that is set: session, provider, time, type, excluded session tree, agent scope, place, file scope |
| FilterLaws.MatchingIsAsAsked | crates/ctx-history-search/src/filters.rs:9-60 | filtering keeps exactly the hits of the list that meet each filter that is set |
| Filters.NoFiltersKeepAll | crates/ctx-history-search/src/filters.rs:9-60 | without filters filtering a list drops nothing |
| Clusters.FoldKnown | crates/ctx-history-search/src/search.rs:385-408 | an element of a known cluster changes that entry's count only, and the index still fits |
| MatchCounts.MatchesOfEntries | crates/ctx-history-search/src/search.rs:385-408 | 1 plus the extra count, summed over the entries of any fold by key, is the number of elements folded, plus what the first elements came with |
| FastSearch.NextPage | crates/ctx-history-search/src/search.rs:363-431 | one pass: the page is consumed up to one result too many, and the loop is left for one of its three reasons or goes on with the next page |
| FastSearch.ScanDone | crates/ctx-history-search/src/search.rs:363-437 | the paged loop stops where a scan without pages does, and reports a spent budget iff that scan ran into it |
| FastSearch.FastEventSearchPacket | crates/ctx-history-search/src/search.rs:335-466 | the paged, clustered scan with its early exits returns the packet of the unpaged description, of the plain ranking with a type filter and else of the one that prefers conversation; it declines for a blank query, a source filter or a small corpus |
| FastLaws.ClusteredResults | crates/ctx-history-search/src/search.rs:385-454 | results are clusters in order of first occurrence, each showing its earliest matching hit with the number of its others and the importance of its rank and count |
| FastLaws.EventResultsInOrder | crates/ctx-history-search/src/search.rs:405-454 | without clustering the results show the first matching hits in order |
| FastLaws.CountsAddUp | crates/ctx-history-search/src/search.rs:385-437 | before truncation 1 plus the extra count, summed over the results, is the number of matching hits consumed |
| FastLaws.NoMoreCountsAll | crates/ctx-history-search/src/search.rs:412-454 | and with `has_more == false` the counts shown add up to all matching hits of the corpus |
| FastLaws.CompleteScan | crates/ctx-history-search/src/search.rs:412-437 | `has_more == false` means every hit of the corpus was looked at, also when one page was enough |
| FastLaws.NoMoreMeansAll | crates/ctx-history-search/src/search.rs:412-454 | `has_more == false` means every matching hit of the corpus is shown by some result |
| FastLaws.LimitMeansAnother | crates/ctx-history-search/src/search.rs:438-454 | reason "limit" means a matching hit exists that no result shows |
| FastLaws.ScanBudgetMeansBudget | crates/ctx-history-search/src/search.rs:425-454 | reason "scan_budget" means all twenty pages, at least 10000 hits, were read without enough results |
| FilterLaws.ResultIsAsAsked | crates/ctx-history-search/src/search.rs:376-412 | every result of the fast search shows a hit of the corpus that meets each filter, with its time, text, origin and citations |
| FilterLaws.FastResultsWithin | crates/ctx-history-search/src/filters.rs:9-60 | no result of the fast search is older than asked, of another session than asked, or of the excluded one |
| FilterLaws.NoMoreShowsAllAsked | crates/ctx-history-search/src/search.rs:412-454 | with `has_more == false` every hit of the corpus that meets each filter is shown |
| Ranks.NormalizeSearchResultRanks | crates/ctx-history-search/src/results.rs:365-384 | the in-place pass computes the specified list |
| Ranks.NormalizedRanks | crates/ctx-history-search/src/results.rs:365-384 | order kept, all ranks in the unit interval, the best 1 when any is positive |
| Ranks.NormalizedImportance | crates/ctx-history-search/src/results.rs:365-389 | a session result shows the importance of its final rank and count, unless no rank is positive |
| Hybrid.AddSemantic | crates/ctx-history-search/src/search.rs:112-160 | the loop that counts positions among the hits that pass builds the specified candidates |
| Hybrid.ClusterBySession | crates/ctx-history-search/src/search.rs:304-333 | the loop over the index returns the list folded by cluster |
| Hybrid.SemanticEventSearchPacket | crates/ctx-history-search/src/search.rs:73-205 | the whole operation returns the packet of the fused, sorted and clustered list, the lexical side from the plain ranking with a type filter and else from the one that prefers conversation; empty for a blank query or an empty file scope |
| HybridTruth.LexicalPage | crates/ctx-history-search/src/search.rs:91-111 | the lexical list is made of the first hits of the ranking: at least 500, and eight for each result and one more, unless there are fewer |
| HybridLaws.CandidateScores | crates/ctx-history-search/src/search.rs:97-160 | a candidate's two scores are those of its last lexical and first semantic position among the hits that pass |
| HybridLaws.FusedListMeaning | crates/ctx-history-search/src/search.rs:97-173 | exactly the events on either list have a candidate, one each, whose rank is (1-w)/(60+lexical) + w/(60+semantic), a missing side worth 0 |
| HybridLaws.SimilarityListMeaning | crates/ctx-history-search/src/search.rs:112-173 | without fusion exactly the events of the semantic list have a candidate, one each, whose rank is the greatest similarity among the hits of its event, or 0, and the candidates come in the order of it |
| HybridLaws.MoreSimilarFirst | crates/ctx-history-search/src/search.rs:128-173 | without fusion an event never comes after one that is less similar |
| HybridLaws.TiesInOrder | crates/ctx-history-search/src/search.rs:293-302 | candidates of equal rank come newest first, then by place in the session, then by id |
| HybridLaws.CandidateShowsHit | crates/ctx-history-search/src/search.rs:97-145 | a candidate shows the last lexical hit of its event, else the first semantic one |
| HybridLaws.ReasonsOfCandidate | crates/ctx-history-search/src/search.rs:146-160 | a candidate names semantic similarity iff the semantic list has its event, and then the types of its hits there |
| FilterLaws.HybridResultIsAsAsked | crates/ctx-history-search/src/search.rs:73-205 | every result of a hybrid search shows a hit of one of its lists that meets each filter |
| HybridLaws.FusionIsMonotone | crates/ctx-history-search/src/search.rs:289-291 | an event at least as good on both lists never scores below the other, for any weight |
| HybridLaws.OrderOfMapDoesNotMatter | crates/ctx-history-search/src/search.rs:162-173 | in whatever order the map yields its values, they sort to the same list, in both modes |
| HybridLaws.EntryOfCluster | crates/ctx-history-search/src/search.rs:304-333 | an entry is the first member of its cluster and counts the others |
| HybridLaws.ClustersKeepTheBest | crates/ctx-history-search/src/search.rs:304-333 | no member of a cluster outranks its entry |
| HybridLaws.EntriesApart | crates/ctx-history-search/src/search.rs:304-333 | entries have different clusters and keep the comparator order of the list |
| HybridLaws.EveryClusterIsKept | crates/ctx-history-search/src/search.rs:304-333 | every candidate's cluster has an entry |
| HybridLaws.CountsAddUp | crates/ctx-history-search/src/search.rs:304-333 | for all lists, weights and modes, 1 plus the extra count, summed over the entries, is the number of events found |
| HybridLaws.PacketRanks | crates/ctx-history-search/src/search.rs:173-205 | ranks shown are non-increasing, in the unit interval, and start with 1 when one is positive |
| HybridTruth.NoMoreMeansAll | crates/ctx-history-search/src/search.rs:174-205 | `has_more == false` means every event on the lists is shown, as its session or as itself |
| HybridTruth.MoreMeansAnother | crates/ctx-history-search/src/search.rs:174-205 | `has_more == true` means an event on the lists that no result shows |
| HybridTruth.NoMoreCountsAll | crates/ctx-history-search/src/search.rs:174-205 | with `has_more == false` the counts shown add up to the events on the lists |
| HybridImportance.ImportanceUpToDate | crates/ctx-history-search/src/search.rs:162-205 | a session is shown with the importance of its rank and count iff something on the lists scores, or no other event found shares the session |
| HybridImportance.SomeRankPositive | crates/ctx-history-search/src/search.rs:162-173 | some rank is positive iff a list with weight is not empty, or without fusion some similarity is positive |
| HybridImportance.ImportanceCanBeStale | crates/ctx-history-search/src/search.rs:304-333 | two hits of one session without similarity are shown with a stale importance |
| TermMerge.MergeKeepsKey | crates/ctx-history-search/src/results.rs:16-88 | exactly when a merge keeps the merge key |
| TermMerge.MergeKeyCanDrift | crates/ctx-history-search/src/results.rs:16-88 | two terms' results with key 7, one a record, one in a session of that id, merge into one result with key 9 |
| TermMerge.MergeAll | crates/ctx-history-search/src/search.rs:230-257 | the loops over packets and results, through the index, build the list merged by key |
| TermMerge.SearchPacketTerms | crates/ctx-history-search/src/search.rs:230-287 | merging, sorting, cutting and normalising give the specified packet and truncation |
| TermMerge.MergeConserves | crates/ctx-history-search/src/search.rs:230-257 | 1 plus the extra count, summed, is the same before and after merging |
| TermMerge.PacketConserves | crates/ctx-history-search/src/search.rs:230-287 | a packet that claims no more stands for exactly the matches of its children, none of which was truncated |
| TermMerge.GroupKeepsKey | crates/ctx-history-search/src/results.rs:16-88 | with session and record ids disjoint a merged result keeps the key of its inputs |
| TermMerge.IndexPointsAtTheResult | crates/ctx-history-search/src/search.rs:236-252 | the index points at the one merged result with the key |
| TermMerge.MergedRank | crates/ctx-history-search/src/results.rs:27-88 | a result merged from n >= 2 has rank between best + 0.08 and best + 0.08 (n - 1) |
| TermMerge.NoMoreMeansAll | crates/ctx-history-search/src/search.rs:253-287 | if there is no more, every result of every child shows in the packet |
| TermMerge.PacketRanks | crates/ctx-history-search/src/search.rs:253-287 | ranks shown are non-increasing and in the unit interval |
| MergeLaws.MergedShowsOneEvent | crates/ctx-history-search/src/results.rs:27-45 | a merged result shows record, event, time and text of one input: the last one that beat what had been merged before it |
| MergeLaws.ClearlyBestIsShown | crates/ctx-history-search/src/results.rs:27-66 | an input that beats every other by more than their bonuses is the one shown |
| MergeLaws.MergedOrigin | crates/ctx-history-search/src/results.rs:41-65 | each field of the origin is the first one known, from the input shown on |
| MergeLaws.MergedReasons | crates/ctx-history-search/src/results.rs:76-94 | the reasons and citations are exactly those of all inputs with the key |
| MergeLaws.MergedKeepsFirst | crates/ctx-history-search/src/results.rs:27-88 | session and scope are those of the first input with the key, whose reasons and citations come first; none is repeated |
| MergeLaws.MergedImportance | crates/ctx-history-search/src/results.rs:66-75 | a merged session has the importance of its merged rank and count |
| MergeLaws.MergedOrder | crates/ctx-history-search/src/results.rs:96-106 | merged results come best first, of equal rank newest first and those without a time last, then by id |
| MergeLaws.ResultShowsOneEvent | crates/ctx-history-search/src/search.rs:230-287 | every result of the packet is such a merged result |
| MergeLaws.TermIsNamed | crates/ctx-history-search/src/search.rs:240-252 | a merged result names every term that found one of its inputs, and the reasons of that input |
| MergeLaws.TruncationMeans | crates/ctx-history-search/src/search.rs:253-274 | results are reported as left out iff a term left some out, which is the reason given, or there are more than the limit; their number is those of the terms and those cut off here |
| Sorting.SortForgetsOrder | crates/ctx-history-search/src/search.rs:293-302 | a stable sort by a comparator that ties only equal members forgets the order of its input |
| Scoring.NormalizeScores | crates/ctx-history-search/src/ranking.rs:669-688 | the in-place passes compute the specified scores |
| Scoring.CoverageFirst | crates/ctx-history-search/src/ranking.rs:669-688 | one candidate outscores another iff it matches more terms, or as many and scored better; scores lie in the unit interval with 1 reached |
| Sorting.SortOrder | crates/ctx-history-search/src/ranking.rs:147-160 | sorting moves each member to a place of its own |
| RecordOrder.RankedOrder | crates/ctx-history-search/src/ranking.rs:147-160 | all gathered candidates have a place, each coming first of those placed after it by matched terms, score, time, title and id, and those kept are those of the first places: none cut off outranks one kept |
| RecordOrder.CandidatesMean | crates/ctx-history-search/src/ranking.rs:83-112 | gathered are the candidates of all records, each at its first place, except those skipped |
| RecordOrder.GatheredInScope | crates/ctx-history-search/src/ranking.rs:88-141 | a search for terms gathers candidates of the listed records only, and with a file filter of those in its scope, unless that names no record and there are filters |
| RecordOrder.InScopeIsGathered | crates/ctx-history-search/src/ranking.rs:88-112 | and with filters it gathers every candidate of the rows read that is in scope |
| RecordSearch.ScanRecords | crates/ctx-history-search/src/ranking.rs:75-120 | the page loop gathers what the pages up to its stopping point hold, and reports a spent budget iff nothing else stopped it |
| RecordSearch.RankedCandidates | crates/ctx-history-search/src/ranking.rs:27-160 | the three branches gather, score, sort and cut as specified: in the order that `RankedOrder` states |
| RecordSearch.PushCandidateResults | crates/ctx-history-search/src/results.rs:108-138 | the loop with its early exit pushes the list folded by cluster, up to the limit |
| RecordSearch.SearchPacket | crates/ctx-history-search/src/search.rs:37-71 | the whole record search returns the specified packet |
| RecordOrder.ResultOfCandidate | crates/ctx-history-search/src/results.rs:108-197 | a result shows the earliest candidate of its cluster, ranked by its score, and as a session with the importance of its rank and count |
| RecordOrder.ResultsNonIncreasing | crates/ctx-history-search/src/search.rs:37-71 | the ranks shown are non-increasing |
| RecordOrder.BestIsShownFirst | crates/ctx-history-search/src/search.rs:37-71 | the first result shows a candidate that no gathered one outranks |
| RecordLaws.EachCandidateShown | crates/ctx-history-search/src/results.rs:108-138 | when as many results as candidates were pushed each candidate has its own result, with nothing folded in |
| RecordLaws.CompleteScan | crates/ctx-history-search/src/ranking.rs:75-120 | on the filtered path, no spent budget and no more candidates than the limit means every row was read |
| RecordLaws.GivesUpLate | crates/ctx-history-search/src/ranking.rs:75-120 | a spent budget means that twenty pages, at least 10000 rows, were read and held too few candidates |
| RecordLaws.NoMoreMeansAll | crates/ctx-history-search/src/search.rs:41-59 | on the filtered path `has_more == false` means every matching record has a result of its own |
| RecordLaws.OmittedCount | crates/ctx-history-search/src/search.rs:41-59 | 1 plus the extra count, summed over the results, is the candidates consumed; the number omitted is the matches folded into the results plus the candidates not consumed, unless the reason is "scan_budget" |
| RecordLaws.UnfilteredIsComplete | crates/ctx-history-search/src/ranking.rs:121-141 | without filters `has_more == false` is complete when the store lists at most `limit + 1` records, and otherwise iff no later one makes a new candidate |
| RecordLaws.UnfilteredGuarantee | crates/ctx-history-search/src/ranking.rs:121-141 | it is complete whatever else the store may hold iff fewer records were fetched than asked for; otherwise some store with the same fetched records gives the same packet and hides a match |
| RecordLaws.UnfilteredCanMiss | crates/ctx-history-search/src/ranking.rs:121-141 | a search that reports no more and misses a match |
| SearchEngine.SearchPacket | crates/ctx-history-search/src/search.rs:27-71 | options normalised, hopeless searches answered at once, then the fast or the record search: the specified packet |
| SearchEngine.ComposedSearchTerms | crates/ctx-history-search/src/query.rs:112-125 | the loop with its set of folded terms returns the specified list |
| SearchEngine.ComposedCovers | crates/ctx-history-search/src/query.rs:112-125 | every value that is not blank is searched for, up to case |
| SearchEngine.ComposedDistinct | crates/ctx-history-search/src/query.rs:112-125 | no two terms are equal up to case |
| SearchEngine.NormalizedTwice | crates/ctx-history-search/src/query.rs:79-110 | the options of a term's search are not changed by being normalised again |
| EngineLaws.NormalizedMeaning | crates/ctx-history-search/src/query.rs:88-110 | normalising keeps every filter but repository and file, which are trimmed and dropped only if blank, and any limit from 1 to 200 |
| EngineLaws.HopelessIff | crates/ctx-history-search/src/search.rs:29-38 | a search is given up at once iff a provider without data is asked for, or a file that nothing touched |
| EngineLaws.HopelessLosesNothing | crates/ctx-history-search/src/search.rs:29-38 | a search given up at once has nothing to find: no hit listed meets its filters, if the store has data of the providers whose hits it lists |
| EngineLaws.ChildOptionsMean | crates/ctx-history-search/src/search.rs:223-228 | a term is searched for with twice the limit, up to 200, and the same filters |
| SearchEngine.SearchPacketTerms | crates/ctx-history-search/src/search.rs:207-287 | one search for each term, merged; the specified packet, also for one term or none |
| SearchEngine.WithinLimit | crates/ctx-history-search/src/search.rs:27-287 | no search returns more results than its limit, and none more than 200 |
| SearchEngine.TermsTruth | crates/ctx-history-search/src/search.rs:207-287 | for several terms `has_more == false` means every hit of the corpus matching a term that the fast search answers is shown, as its session or as itself |
| SearchEngine.AllRanks | crates/ctx-history-search/src/search.rs:27-287 | whatever paths answer it, a search shows ranks in the unit interval |
| EngineLaws.TermsAnswerWithin | crates/ctx-history-search/src/search.rs:207-287 | what several terms find, where the fast search answers them, is no older than asked, of no other session than asked and not of the excluded one, though merging mixes the event of one result with the session of another |
| EngineLaws.RecordAnswerFrom | crates/ctx-history-search/src/search.rs:37-71 | what the record search answers for terms are records the store lists for the query, in the file scope if that names records |
| EngineLaws.FileAnswerFrom | crates/ctx-history-search/src/search.rs:37-71 | without terms, records of the file scope only |
| Framing.PiecesCutAtLineFeeds | crates/ctx-cli/src/mcp.rs:112-147 | the pieces put together are the stream, and each but perhaps the last ends with its only line feed |
| Framing.CutIsUnique | crates/ctx-cli/src/mcp.rs:112-147 | there is no other way to cut the stream so |
| Framing.ReadInputLine | crates/ctx-cli/src/mcp.rs:112-147 | for every chunking one call takes exactly the next piece, and reports it too large iff it is longer than the bound with its line feed |
| Framing.ReadChunk | crates/ctx-cli/src/mcp.rs:115-146 | one pass of the loop: the buffer stays a part of the line within the bound, or the line ends as specified |
| Framing.DiscardUntilNewline | crates/ctx-cli/src/mcp.rs:149-169 | skips to right after the next line feed, or to the end |
| McpServer.Session.HandleMessage | crates/ctx-cli/src/mcp.rs:186-254 | exactly the messages without id are not answered; an answer carries the message's id unless it loses it; the handshake flag is set exactly by a completing message, and results come only with it set |
| McpServer.AnswerLosesId | crates/ctx-cli/src/mcp.rs:976-986 | exactly when an answer carries no id; otherwise it carries the message's own |
| McpServer.NullIdIsPruned | crates/ctx-cli/src/mcp.rs:976-986 | a call with a null id is refused without an id; a message of another version keeps an array for an id |
| McpServer.Session.Serve | crates/ctx-cli/src/mcp.rs:73-110 | for every chunking the responses are those to the pieces of the stream, in order |
| McpServer.InitializedIff | crates/ctx-cli/src/mcp.rs:186-254 | the server is initialised iff some piece so far completed the handshake |
| McpServer.AnswersUnderItsId | crates/ctx-cli/src/mcp.rs:186-254 | a request is answered under its id, refused before the handshake; a notification is not answered (sections 4.1 and 5 of the JSON-RPC 2.0 specification) |
| McpServer.EachMethodIsServed | crates/ctx-cli/src/mcp.rs:229-253 | each of the four methods has its own answer, and any other is not found |
| McpServer.EveryPieceIsAnswered | crates/ctx-cli/src/mcp.rs:81-106 | a piece goes unanswered iff it is blank or a notification; what is no JSON is answered with a parse error, what is no request with a bad request |
| McpServer.OneResponseEach | crates/ctx-cli/src/mcp.rs:73-110 | the transcript has one response for each piece that does not go unanswered |
| McpServer.NoResultBeforeHandshake | crates/ctx-cli/src/mcp.rs:186-254 | no result comes before a piece that completes the handshake |
| SpoolNames.StatePathOfProcessing | crates/ctx-history-capture/src/spool.rs:332-349 | moving on from the processing name is moving on from the base name |
| SpoolNames.RetryFindsBase | crates/ctx-history-capture/src/spool.rs:191-197 | stripping the failed suffix finds the base name |
| SpoolNames.NamesAreDistinct | crates/ctx-history-capture/src/spool.rs:332-349 | a name determines its base and its state |
| SpoolNames.CountedInItsClass | crates/ctx-history-capture/src/spool.rs:159-174 | the counting tests, in their order, put every spool file in the state it is in |
| Spool.Inductive | crates/ctx-history-capture/src/spool.rs:33-210 | every step of writers, importers and retries keeps the invariant |
| Spool.OneFilePerCapture | crates/ctx-history-capture/src/spool.rs:71-146 | in every interleaving each capture is in exactly one state, with what was written to it |
| Spool.ClaimIsExclusive | crates/ctx-history-capture/src/spool.rs:305-310 | no two processes hold one file, and every claimed file is held by one |
| Spool.ClaimedOncePerPending | crates/ctx-history-capture/src/spool.rs:118-126 | a file is claimed at most once each time it becomes pending, and has been iff it is pending no more |
| Spool.ImportedOnce | crates/ctx-history-capture/src/spool.rs:128-146 | no capture is imported successfully twice, however often retried, and each done one was once |
| Spool.RenamesAreSafe | crates/ctx-history-capture/src/spool.rs:71-210 | no rename overwrites a file, and those of a writer and of a claimed file find theirs |
| Spool.CreateIsSafe | crates/ctx-history-capture/src/spool.rs:41-47 | a new writer's temporary name is free |
| Spool.PublishedIsKept | crates/ctx-history-capture/src/spool.rs:71-210 | over every run a published capture stays in the spool unaltered, and a done one stays done |
| Spool.QuietSpool | crates/ctx-history-capture/src/spool.rs:118-146 | once all processes have ended no capture is left claimed |
| SpoolInbox.Inbox.PendingFiles | crates/ctx-history-capture/src/spool.rs:287-303 | exactly the pending names in path order, or the error for one that is no regular file |
| SpoolInbox.Inbox.ClaimPending | crates/ctx-history-capture/src/spool.rs:305-318 | renames a regular file, or changes nothing and says why |
| SpoolInbox.Inbox.ImportFiles | crates/ctx-history-capture/src/spool.rs:118-149 | the loop leaves the specified directory and returns the specified summary |
| SpoolInbox.Inbox.ImportSpool | crates/ctx-history-capture/src/spool.rs:112-150 | fails before touching anything, or accounts for every pending file: processed + skipped = listed, one failure reported for each failed file |
| SpoolInbox.EachIsMovedOn | crates/ctx-history-capture/src/spool.rs:118-149 | each listed file ends unaltered as done or failed, or claimed by the other importer that was first |
| SpoolInbox.OthersUntouched | crates/ctx-history-capture/src/spool.rs:118-149 | no name of any other capture is touched |
| SpoolInbox.FailuresAreTheFailed | crates/ctx-history-capture/src/spool.rs:135-146 | the failures reported are exactly the files that ended as failed |
| SpoolInbox.Accounting | crates/ctx-history-capture/src/spool.rs:112-150 | processed + skipped = listed, skipped are those claimed by others, one failure for each failed file |
| SpoolInbox.Inbox.SpoolCounts | crates/ctx-history-capture/src/spool.rs:152-177 | the counting loop counts each name in its class |
| SpoolInbox.CountsAreDisjoint | crates/ctx-history-capture/src/spool.rs:159-174 | the five counts add up to the names that belong to a class |
| SpoolLaws.CountsAreTrue | crates/ctx-history-capture/src/spool.rs:152-177 | in every reachable spool each count is the number of captures in that state |
| SpoolLaws.CountsAddUp | crates/ctx-history-capture/src/spool.rs:152-177 | in every reachable spool every capture is counted once |
| SpoolInbox.Inbox.RetryFailed | crates/ctx-history-capture/src/spool.rs:179-210 | the loop renames, removes sidecars and stops at an occupied pending name as specified |
| SpoolInbox.RetryRestores | crates/ctx-history-capture/src/spool.rs:179-210 | where no failed capture is also pending, exactly the failed ones are pending again as they were, and their number is reported |
| SpoolArchive.ReadJsonl | crates/ctx-history-capture/src/spool.rs:85-110 | all envelopes, or the first wrong line with its number |
| SpoolArchive.ArchiveFromEnvelopes | crates/ctx-history-capture/src/spool.rs:212-250 | the loop builds the archive joined from the contributions, or the first error |
| SpoolArchive.ArchiveOfAppend | crates/ctx-history-capture/src/spool.rs:212-250 | the archive of a list in two parts is the join of the archives of the parts |
| SpoolArchive.ArchiveHoldsAll | crates/ctx-history-capture/src/spool.rs:212-250 | the archive holds the records and all other lists that each envelope brings, whole and in their place |
| SpoolArchive.Store.ImportProcessingFile | crates/ctx-history-capture/src/spool.rs:252-275 | success stores every envelope in order and counts the records of the whole archive; failure keeps exactly the envelopes before the first that fails, and nothing iff a line is wrong or that is the first |
| SpoolArchive.FailedFileKeepsItsStart | crates/ctx-history-capture/src/spool.rs:252-275 | a file of two envelopes that fails and keeps the first |
| ShellQuote.QuoteRoundTrip | crates/ctx-cli/src/transcript.rs:676-685 | for every string a POSIX shell reads the quoted form as one word, the string (sections 2.2.1, 2.2.2 and 2.3 of the Shell Command Language volume of POSIX.1-2017) |
| ShellQuote.ArgumentsRoundTrip | crates/ctx-cli/src/transcript.rs:676-685 | quoted arguments joined by spaces are read back as the arguments |
| ShellQuote.QuoteIsInjective | crates/ctx-cli/src/transcript.rs:676-685 | different values have different quoted forms |
| ShellQuote.ResumeCommandIsItsArgv | crates/ctx-cli/src/transcript.rs:656-674 | the command shown for resuming a session is read as the argument list given beside it |
| ShellQuote.SearchTargetReadsBack | crates/ctx-cli/src/search_filters.rs:119-134 | the target named when nothing was found is read back as the query, or as one option for each term that is not blank |
| Chunker.ChunkDocument | scripts/search_eval/semantic_backfill_bench.py:405-445 | the three errors, and otherwise chunks cut along ranges that tile the text; the loop ends |
| Chunker.NeighboursOverlap | scripts/search_eval/semantic_backfill_bench.py:421-428 | neighbours share exactly the overlap, and each chunk adds a character |
| Chunker.Reconstruction | scripts/search_eval/semantic_backfill_bench.py:421-445 | the first chunk and the later ones less their overlap are the text |
| Chunker.ChunkCount | scripts/search_eval/semantic_backfill_bench.py:421-428 | 0, 1, or 1 + ceil((n - target) / (target - overlap)) chunks |
| Chunker.ChunksFit | scripts/search_eval/semantic_backfill_bench.py:421-428 | every chunk has at most the target length, and all but the last exactly that |
| LiteTranscript.LiteTranscriptEvents | crates/ctx-cli/src/transcript.rs:151-168 | an ordered subsequence: every user message, and an assistant message iff no other follows before the next user message or the end |
| LiteTranscript.SelectedTranscriptEvents | crates/ctx-cli/src/transcript.rs:143-149 | each mode selects, in order, exactly the events it shows |
| LiteTranscript.SelectionIsUnique | crates/ctx-cli/src/transcript.rs:151-168 | order and membership determine the selection |
| LiteTranscript.AssistantsAlternate | crates/ctx-cli/src/transcript.rs:151-168 | after an assistant message the selection continues with a user message |
| LiteTranscript.LiteIsIdempotent | crates/ctx-cli/src/transcript.rs:151-168 | the lite transcript of a lite transcript is itself |
| LiteTranscript.ModesNest | crates/ctx-cli/src/transcript.rs:143-149 | what the lite mode shows the full mode shows, and what that shows the log shows |

## Left out

* Storage, full-text scoring, embeddings, providers: pages are slices of one fixed list, and the candidate a record makes (analysis of its text, filters on its context) is part of the record's row.
* Floating-point rounding and NaN: ranks and scores are reals; the importance of a session is the application of a fixed function, kept symbolic, to a rank and a count.
- FastLaws.LimitMeansAnother: requires distinct event ids when results are not clustered, as the store's primary key has them; a repeated event would be shown by the result of its first occurrence.
- HybridLaws.CandidateScores: uses the last lexical position of an event, since a repeated event overwrites its candidate; with distinct events it is the only one.
- TermMerge.GroupKeepsKey: in the mode of sessions it requires session ids and record ids to be disjoint, without which it is false.
* Text that search only passes along (titles, snippets, details) is one field; the repository filter compares places that are already in lower case.
* Splitting a query into words, and the case folding of terms, which is a parameter.
- SearchEngine.TermsTruth: says nothing of terms that go to the record search, whose results are records and not hits, and requires session ids and record ids to be disjoint in the mode of sessions.
- SearchEngine.AllRanks: requires non-negative record scores; the scorer adds up non-negative weights but is not part of this model.
- RecordOrder.RankedOrder: requires non-negative record scores, for the same reason.
- EngineLaws.HopelessLosesNothing: requires that the store has data of every provider whose hits it lists.
- EngineLaws.TermsAnswerWithin: says nothing of terms that go to the record search, whose filters are part of the record's row.
* Environment overrides and the creation of the default configuration file; which of two idle-timeout keys is read first (the one in seconds wins either way).
* Input and output errors, crashes, sleeping, clocks, permissions, process spawning: every file-system step succeeds or fails as the directory says.
* How an import that an exception ends is to be counted: it leaves the failure marker and the working file as they are, and the model does not count it as ended.
* The hook-sync status file, the marker of any last failure, and the exit codes of the locked command other than 75.
* A listing that fails because a file vanished meanwhile: an error exit that changes nothing. (Listings that are merely out of date are modelled.)
* The contents of a failed file's `.error.json` sidecar; sidecars are in no reachable `Spool` state, and `SpoolInbox` models only that a retry removes them.
* Decoding of JSON payloads into records, and what the store rejects: parameters of `SpoolArchive`.
* Decoding of JSON-RPC messages and the bodies of the MCP tools: parameters of `McpServer`; null members pruned inside a compound id are not modelled.
* Double quotes and expansions in the shell reader: an unquoted character that would start either makes it give up, so a round trip never relies on them. A query that looks like an option is one word, but an option to ctx.
* Changes of the target directories while a worker runs: which exist is fixed for the run.
* Snippet extraction, rendering, analytics, install scripts, SDKs and evaluation reports.
