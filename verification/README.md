# BillMap bill metadata and bill detail view, in Dafny

This project models two parts of BillMap, a Django application that relates bills of the
United States Congress to one another.

- `scripts/billdata.py` builds `billsMeta`. It walks the congress data tree and picks out each
  bill's top-level directory. For each bill's `data.json` it normalises `bill_id` (`hr1-116`)
  into the congress-type-number key (`116hr1`). Under that key it files the bill's titles, its
  whole-bill titles and its cosponsors' names and bioguide ids. A snapshot of the map is saved
  whenever the number of keys is a multiple of 1000, and once more at the end.
- `server_py/flatgov/bills/views.py` holds the bill detail view's data helpers:
  - the `bill_id` to bill-number conversion and the sponsor label;
  - de-duplication of a bill's committees and the committee-id map;
  - the bill's own similarity score, and the "identical" bills chosen from the similar ones;
  - the bill numbers the related statements, committee documents, CBO reports and CRS reports
    are queried by;
  - the cosponsor table: sponsor first, each cosponsor enriched from the members table, then
    grouped by original/ranked and sorted by rank;
  - the cosponsors of the bill and its identical bills, merged by bioguide id.

The modules are:

- `PyValues` (`py_values.dfy`): JSON values, truthiness, `dict.get` and `deep_get`.
- `PyStrings` (`py_strings.dfy`): `str.split`, `str.join` and string comparison.
- `Seqs` (`sequences.dfy`): filters, de-duplication and a stable sort with their laws.
- `BillData` (`billdata.dfy`): the aggregator. `Aggregator` is a class whose `billsMeta` map and
  list of saved snapshots are updated in place. The pure steps are functions, and the walk and
  the processing loop are methods proved against them.
- `BillViews` (`bill_views.dfy`): the view helpers. `BillDetailView` is a class holding the
  bill's stored fields and the `identicalBillNumbers` list that one method sets and others read.

External things are parameters of the model:

- the file reader;
- the directory listing that `os.walk` produces;
- the ORM lookups (`Bill.objects.get`, `Cosponsor.objects.get`, `Cosponsor.objects.filter`);
- the `cleanReasons` and `sort_bills_for_congress` helpers.

Each has its own line under "Left out".

## Model

| member | source | states |
|---|---|---|
| BillData.LowerRun | scripts/billdata.py:47 | The length of the leading run of lower-case letters: that prefix is all letters and the next character is not one |
| BillData.LowerRunIs | scripts/billdata.py:47 | Any prefix length that is all letters and is followed by a non-letter is exactly the run length |
| BillData.LeafMatchesIsPattern | scripts/billdata.py:47 | The one-scan test decides `re.match(r'[a-z]+[0-9]+', leaf)` in both directions: some prefix is one or more letters followed by one or more digits |
| BillData.GetTopBillLevel | scripts/billdata.py:36-47 | The only error `getTopBillLevel` can raise is IndexError |
| BillData.TopBillLevelFails | scripts/billdata.py:46-47 | It raises exactly when the leaf matches and the path has fewer than two slashes, because `parts[-3]` is evaluated only after the leaf has matched |
| BillData.TopBillLevelOfBillDir | scripts/billdata.py:36-47 | `<root>/bills/<type>/<leaf>` is a bill's top level exactly when the leaf matches the pattern, for any root |
| BillData.TopBillLevelOfSubdirectory | scripts/billdata.py:36-47 | A directory whose leaf does not match is not a top level |
| BillData.TopBillLevelExampleBill | scripts/billdata.py:38 | The documented example `../congress/data/116/bills/hr/hr1` is a top level |
| BillData.TopBillLevelExampleTextVersions | scripts/billdata.py:36-47 | The `text-versions` directory under a bill is not a top level |
| BillData.TopBillLevelExampleTypeDir | scripts/billdata.py:36-47 | The bill-type directory `.../bills/hr` is not a top level |
| BillData.TopBillLevelUnderRoot | scripts/billdata.py:52-54 | No directory under the walk root `../congress/data` makes `getTopBillLevel` raise |
| BillData.WalkFilterTotal | scripts/billdata.py:52-54 | When every listed directory is under the walk root, the directory filter never raises |
| BillData.Pairs | scripts/billdata.py:57-58 | One `(dir, file)` call per file, in order |
| BillData.WalkBillDirs | scripts/billdata.py:52-58 | The loop over the walk makes exactly the calls of the specification `WalkCalls`: each matching file of each matching directory, in walk order |
| BillData.WalkCallsMembers | scripts/billdata.py:52-58 | A `(dir, f)` call is made if and only if `f` is listed in `dir` and both match |
| BillData.WalkCallsAppend | scripts/billdata.py:53-58 | The calls for two consecutive stretches of the walk are those of the first followed by those of the second |
| BillData.WalkCallsDistinct | scripts/billdata.py:52-58 | When each directory and each file within a directory is reported once, no file is processed twice |
| BillData.DirNames | scripts/billdata.py:53 | The directory names of the walk, in walk order |
| BillData.GetBillCongressTypeNumber | scripts/billdata.py:80-87 | None exactly when `bill_id` is falsy; AttributeError exactly for a truthy non-string id; IndexError exactly for a non-empty id without a hyphen |
| BillData.BillCongressTypeNumberOf | scripts/billdata.py:80-84 | For `type-congress[-rest]` the key is congress followed by type; later segments are ignored |
| BillData.GetCosponsors | scripts/billdata.py:89-105 | With no fields, the raw `cosponsors` value. With fields, it succeeds exactly when the cosponsors iterate as dicts, and gives one dict per cosponsor with exactly those fields (None where one is missing), in order |
| BillData.StageLabel | scripts/billdata.py:13-16 | The stage filter of `getBillTitles` (line 123) has a label exactly for the codes in BILL_TYPES, and it is the label listed there |
| BillData.GetBillTitles | scripts/billdata.py:107-125 | By default, the raw titles value. When it filters at all, it fails exactly when the titles do not iterate as dicts. Otherwise it is a list of title dicts, an in-order subsequence of the titles, holding exactly the titles that are whole-bill (when partial titles are excluded) and carry the stage's `as` label (when a known stage is given) |
| BillData.StageFilterSpec | scripts/billdata.py:123-124 | The stage filter keeps, in order, exactly the titles whose `as` is the stage label |
| BillData.SelectTitlesSpec | scripts/billdata.py:120-124 | The kept titles are, in their original order, exactly the titles that pass both filters |
| BillData.WholeBillTitlesSpec | scripts/billdata.py:167-169 | `titles_whole_bill` is an in-order subsequence of `titles`, holding exactly the texts of titles with a falsy `is_for_portion` |
| BillData.DocKey | scripts/billdata.py:161-164 | A document is filed only if it is a dict with a non-empty key |
| BillData.FileBillTitlesFail | scripts/billdata.py:165-168 | When the titles do not iterate, only the entry itself is written (the existing one, or `{}` when it was missing or empty), and the call raises |
| BillData.FileBillCosponsorsFail | scripts/billdata.py:167-170 | When the cosponsors do not iterate, the two title fields are written, and the call raises |
| BillData.FileBillPass | scripts/billdata.py:165-173 | When everything iterates, the three fields are written, and a save happens exactly when the key count is a multiple of SAVE_ON_COUNT |
| BillData.Step | scripts/billdata.py:160-173 | A document without a key changes nothing. Otherwise it writes only its own key. It saves exactly when it succeeds with a multiple of SAVE_ON_COUNT keys, and it adds at most one key |
| BillData.StepOutcomeIndependent | scripts/billdata.py:160-173 | Whether filing a document raises does not depend on what `billsMeta` already holds |
| BillData.StepEntry | scripts/billdata.py:165-170 | A bill filed without error has the three fields on top of its old entry: all title texts, the whole-bill ones in order, and one `{name, bioguide_id}` per cosponsor |
| BillData.WrittenEntry | scripts/billdata.py:167-170 | What filing writes into an entry when nothing raises |
| BillData.StepOverwrites | scripts/billdata.py:165-170 | Filing overwrites rather than merges: the new entry does not depend on an old entry that held only the three fields |
| BillData.WrittenOverwrites | scripts/billdata.py:165-170 | The same at the level of one entry |
| BillData.RunStopsAtFailure | scripts/billdata.py:175 | After an error, later documents change nothing |
| BillData.RunOutcomeIndependent | scripts/billdata.py:159-177 | Whether, and where, a run raises does not depend on the starting map |
| BillData.RunKeys | scripts/billdata.py:159-177 | A run keeps every starting key, adds only keys of documents it read, and leaves alone every entry no document names |
| BillData.RunLastKeys | scripts/billdata.py:160-173 | The last document of a run adds at most its own key and changes no other entry |
| BillData.RunSaves | scripts/billdata.py:171-173 | Every snapshot saved holds a multiple of SAVE_ON_COUNT keys, contains the starting keys, and snapshots only grow |
| BillData.RunLast | scripts/billdata.py:171-173 | The last document only adds keys, and saves at most the map it leaves |
| BillData.RunEntriesWithin | scripts/billdata.py:165-170 | Entries that hold only the three fields still do after a run that does not raise |
| BillData.StepOverlay | scripts/billdata.py:160-173 | Filing on a map laid over another equals filing on the upper map, laid over the lower one |
| BillData.RunOverlay | scripts/billdata.py:159-177 | A run that does not raise lays the entries it writes over the starting map, independently of what was there |
| BillData.RunIdempotent | scripts/billdata.py:159-177 | Running over the same documents a second time leaves `billsMeta` as the first run left it |
| BillData.LoadAll | scripts/billdata.py:161 | `loadJSON` applied to each processed path, in order |
| BillData.RunOfPrefix | scripts/billdata.py:175 | A run that stopped early, or read every call, equals the run over all the calls |
| BillData.Aggregator.constructor | scripts/billdata.py:159 | Starts from the given `billsMeta` with no snapshots saved |
| BillData.Aggregator.SaveBillsMeta | scripts/billdata.py:152-157 | Appends a snapshot of the current map and leaves the map unchanged |
| BillData.Aggregator.AddToBillsMeta | scripts/billdata.py:160-173 | The in-place updates of `billsMeta`, and the save, are exactly one `Step` on the loaded document |
| BillData.Aggregator.FileUnder | scripts/billdata.py:165-173 | The three in-place writes and the conditional save under a known key are exactly `FileBill` |
| BillData.Aggregator.ProcessFiles | scripts/billdata.py:175 | Calling `addToBillsMeta` on each call until one raises leaves exactly the state of `Run` over the loaded documents |
| BillData.Aggregator.UpdateBillsMeta | scripts/billdata.py:159-177 | Ends in the state of `Run` over every `data.json` of every bill's top level under the walk root. It saves once more at the end exactly when nothing raised |
| PyValues.DeepGetAppend | scripts/billdata.py:60-73 | A path lookup is the lookup of its second half inside the lookup of its first half |
| PyValues.DeepGetOfNonDict | scripts/billdata.py:71-73 | Once the walk meets a non-dict, every longer path yields None |
| PyValues.DeepGetMissing | server_py/flatgov/bills/views.py:40-42 | A missing first key, or a non-dict start, yields None |
| PyValues.DeepGetFoundPath | server_py/flatgov/bills/views.py:30-42 | A non-None result means every step of the path found a dict holding the next key |
| PyValues.DictItems | scripts/billdata.py:103 | Iterating a value and calling `.get` on each element succeeds exactly for a list of dicts, an empty string or an empty dict, and yields those dicts in order |
| PyStrings.Split | scripts/billdata.py:46 | `str.split(sep)` always yields at least one part |
| PyStrings.JoinSplit | server_py/flatgov/bills/views.py:65 | Joining the parts of a split with the same separator gives back the string |
| PyStrings.SplitJoin | server_py/flatgov/bills/views.py:65 | Splitting a join of one or more parts by a one-character separator that none of them contains gives back the parts |
| PyStrings.SplitCount | scripts/billdata.py:46-47 | A split by one character has one part more than the number of occurrences of that character |
| PyStrings.SplitSumLengths | server_py/flatgov/bills/views.py:65 | The parts' lengths add up to the string's length minus the separators |
| PyStrings.StrLessIsStrictTotalOrder | server_py/flatgov/bills/views.py:279 | Python's string comparison is a strict total order, so sorting by name is well defined |
| BillViews.BillIdToBillNumberLength | server_py/flatgov/bills/views.py:56-65 | The bill number is the id with its hyphens removed |
| BillViews.BillIdToBillNumberNoHyphen | server_py/flatgov/bills/views.py:65 | An id without a hyphen is returned unchanged |
| BillViews.BillIdToBillNumberOfPair | server_py/flatgov/bills/views.py:56-65 | `type-congress` becomes `congresstype` |
| BillViews.BillIdToBillNumberExample | server_py/flatgov/bills/views.py:58 | The documented example: `hr299-116` becomes `116hr299` |
| BillViews.BillIdConversionsAgree | server_py/flatgov/bills/views.py:56-65 | The view's conversion and the aggregator's `getBillCongressTypeNumber` give the same key for a two-part id |
| BillViews.MakeSponsorBracket | server_py/flatgov/bills/views.py:68-78 | Succeeds exactly when state and district are strings or falsy, since concatenation needs strings |
| BillViews.SponsorBracketParts | server_py/flatgov/bills/views.py:68-78 | The label reads back as `[`, party, `-`, state and district, `]`. With no state and no district it is `[party-]` |
| BillViews.CommitteesDictDeduped | server_py/flatgov/bills/views.py:254-268 | A falsy committees list gives []. Otherwise the loop's result is the de-duplication, failing exactly when the items do not iterate as dicts |
| BillViews.DedupByCommitteeSubsequence | server_py/flatgov/bills/views.py:258-268 | The de-duplicated list is an in-order subsequence of the committees |
| BillViews.DedupByCommitteeKeys | server_py/flatgov/bills/views.py:262-267 | Its committee names are distinct, and they are exactly the truthy names in the input |
| BillViews.DedupByCommitteeFirst | server_py/flatgov/bills/views.py:262-267 | An item whose committee name is truthy and carried by no earlier item is kept |
| BillViews.DedupByCommitteeKeptFirst | server_py/flatgov/bills/views.py:262-267 | Conversely, every kept item is an item whose committee name is truthy and carried by no earlier item |
| BillViews.CommitteesMapKeys | server_py/flatgov/bills/views.py:270-275 | The map's keys are exactly the committee ids of the de-duplicated items |
| BillViews.CommitteesMapValues | server_py/flatgov/bills/views.py:272-275 | Each id maps to the committee name of the last item carrying it |
| BillViews.GetCommitteesMap | server_py/flatgov/bills/views.py:270-275 | It fails exactly when a truthy committees list does not iterate as dicts |
| BillViews.CommitteesMapOfDeduped | server_py/flatgov/bills/views.py:270-275 | With distinct ids, every kept item's id maps to that item's committee name |
| BillViews.FindNumber | server_py/flatgov/bills/views.py:358-362 | The index of the first similar bill carrying the number, or None exactly when none does |
| BillViews.CurrentBillScoreSpec | server_py/flatgov/bills/views.py:356-366 | The score of the first own-number entry, or 0 when none exists. It raises StopIteration exactly when the own number is empty, some entry lacks a number, and none carries the empty one |
| BillViews.ScoreCloseBounds | server_py/flatgov/bills/views.py:375 | For a positive own score, "close" means strictly within 10% of it, on either side |
| BillViews.IdenticalNumbersMembers | server_py/flatgov/bills/views.py:372-376 | A number is selected if and only if it is non-empty and carried by some bill with an identical reason or a close score |
| BillViews.IdenticalNumbersSubsequence | server_py/flatgov/bills/views.py:372-376 | The selection keeps the similar bills' order |
| BillViews.CurrentBillQualifies | server_py/flatgov/bills/views.py:370-375 | With a positive score, the bill's own number is among its identical bills |
| BillViews.RelatedNumbers | server_py/flatgov/bills/views.py:178-195 | The numbers queried by the statements and committee documents (and identically by the CBO reports, lines 237-245) are distinct and start with the slug's number without its congress. They are exactly that and the congress-less numbers of the identical bills |
| BillViews.CrsBillNumbersAsWrittenRepeats | server_py/flatgov/bills/views.py:197-201 | As written, slug `116hr1` with identical `["116hr1"]` queries `116hr1` twice |
| BillViews.CrsBillNumbers | server_py/flatgov/bills/views.py:197-201 | The corrected list is distinct, starts with the slug, and holds exactly the slug and the identical numbers |
| BillViews.SameBillNumbers | server_py/flatgov/bills/views.py:384-386 | The identical numbers unchanged when they hold the current number; otherwise the current number first, then the identical numbers. Hence exactly the current number and the identical ones, in the identical list's order |
| BillViews.BillIds | server_py/flatgov/bills/views.py:387-388 | One id per number, in order. DoesNotExist exactly when some number has no bill |
| BillViews.BillDictOf | server_py/flatgov/bills/views.py:389 | Its keys are exactly the ids |
| BillViews.BillDictOfLastWins | server_py/flatgov/bills/views.py:389 | A repeated id maps to the number at its last position |
| BillViews.Relevant | server_py/flatgov/bills/views.py:406-410 | Keeps, in order, exactly the memberships whose committee is in the committees map |
| BillViews.CommitteesNamed | server_py/flatgov/bills/views.py:411-414 | One committee name per relevant membership, taken from the map |
| BillViews.StartEntry | server_py/flatgov/bills/views.py:404-419 | A first row starts an entry with its own bill number and the names and ranks of its relevant committees. It fails exactly when its committees do not iterate as dicts |
| BillViews.MergeRow | server_py/flatgov/bills/views.py:398-419 | Merging one row keeps the roster well formed |
| BillViews.MergeRows | server_py/flatgov/bills/views.py:397-421 | The merged roster is well formed |
| BillViews.RosterValues | server_py/flatgov/bills/views.py:421 | The merged entries in first-seen order |
| BillViews.MergeRowsPrefixFails | server_py/flatgov/bills/views.py:398-419 | An error stops the merge with that error |
| BillViews.MergeRowsOrder | server_py/flatgov/bills/views.py:397-421 | The entries are in the order their bioguide ids first appear in the rows |
| BillViews.MergeRowsKeys | server_py/flatgov/bills/views.py:397-421 | There is an entry exactly for each bioguide id in the rows |
| BillViews.MergeRowsBillNumbers | server_py/flatgov/bills/views.py:399-405 | Each entry's bill numbers are those of all its rows, in row order |
| BillViews.MergeRowsTotal | server_py/flatgov/bills/views.py:398-405 | Every row contributes exactly one bill number, so the lists add up to the number of rows |
| BillViews.MergeRowsFirstRow | server_py/flatgov/bills/views.py:404-419 | Each entry's row, committees and ranks come from the first row of its bioguide id |
| BillViews.MergeRowEntry | server_py/flatgov/bills/views.py:401-419 | One merge step keeps existing entries' first rows, and starts a new entry from the current row |
| BillViews.MergeRowsFailure | server_py/flatgov/bills/views.py:398-419 | The merge raises exactly when the first row of some bioguide id has committees that do not iterate as dicts |
| BillViews.SortByName | server_py/flatgov/bills/views.py:278-279 | Succeeds exactly when the cosponsors iterate as dicts and, when there are two or more, all names are strings; otherwise TypeError. The result is sorted by name and is a permutation of the input |
| BillViews.MoveToFront | server_py/flatgov/bills/views.py:291-292 | `remove` then `insert(0, …)`: the chosen element first, then the rest in order, as a permutation |
| BillViews.PlaceSponsorMoves | server_py/flatgov/bills/views.py:284-292 | When some cosponsor has the sponsor's name, the first such one moves to the front; nothing else is reordered, lost or added |
| BillViews.PlaceSponsorInserts | server_py/flatgov/bills/views.py:281-294 | An empty sponsor name changes nothing. An unmatched name puts the marked sponsor in front of the list |
| BillViews.LastWithId | server_py/flatgov/bills/views.py:322-323 | The index of the last committee dict carrying the id, or None exactly when none does |
| BillViews.MatchCommittee | server_py/flatgov/bills/views.py:322-326 | With no committee dict carrying the id, nothing changes. Otherwise the result is the cosponsor with `committee_id` set to the id, `rank` to the membership's rank, and `committee_name` to the name in the last committee dict carrying the id |
| BillViews.ApplyMembership | server_py/flatgov/bills/views.py:318-326 | Only the committee keys change. It fails with AttributeError for a membership that is not a dict, and otherwise only for a membership of this member when the bill's committees do not iterate |
| BillViews.ApplyMemberships | server_py/flatgov/bills/views.py:318-326 | Only the committee keys change |
| BillViews.LastApplying | server_py/flatgov/bills/views.py:318-323 | The index of the last membership that is the member's own and names a committee of the bill, or None exactly when none is |
| BillViews.ApplyMembershipsOutcome | server_py/flatgov/bills/views.py:318-326 | The memberships loop raises exactly when some membership is not a dict, or when the member has an own membership and the bill's committees do not iterate as dicts |
| BillViews.ApplyMembershipsValues | server_py/flatgov/bills/views.py:318-326 | After the loop, the last applying membership decides `committee_id`, `rank` and `committee_name`. When none applies the cosponsor is unchanged |
| BillViews.Enrich | server_py/flatgov/bills/views.py:302-326 | Only the enrichment keys change. No bioguide id: unchanged. Unknown member: `current` is False. Known member: `current` True, party and official name copied. It fails only for a known member, whose memberships are walked in order until the first error |
| BillViews.EnrichRaisesInIterationOrder | server_py/flatgov/bills/views.py:318-323 | Memberships are walked in order: an own membership meets missing bill committees (TypeError) before a later non-dict membership is reached |
| BillViews.EnrichAll | server_py/flatgov/bills/views.py:302-326 | Succeeds exactly when every cosponsor enriches, and then it is each cosponsor enriched, in order |
| BillViews.EnrichAllPrefixFails | server_py/flatgov/bills/views.py:302-326 | An error stops the enrichment with that error |
| BillViews.EnrichCosponsors | server_py/flatgov/bills/views.py:302-326 | The loop computes `EnrichAll` |
| BillViews.SplitBy | server_py/flatgov/bills/views.py:328-344 | The partition loop's two lists are the filter and the reject of the input |
| BillViews.SplitBySpec | server_py/flatgov/bills/views.py:328-344 | The two halves together are a permutation of the input, and each holds exactly the elements that do (or do not) satisfy the test |
| BillViews.GroupsMembers | server_py/flatgov/bills/views.py:328-344 | The four lists hold exactly the original-ranked, original-unranked, other-ranked and other-unranked cosponsors |
| BillViews.DisplayTailSorted | server_py/flatgov/bills/views.py:346-350 | After the first cosponsor, the table is ordered by group and, within ranked groups, by rank |
| BillViews.DisplayTailStable | server_py/flatgov/bills/views.py:346-350 | Cosponsors with the same group and rank keep their relative order, since Python's sort is stable |
| BillViews.DisplayTailPermutation | server_py/flatgov/bills/views.py:328-350 | After the first cosponsor, the table is a permutation of the rest |
| BillViews.DisplayOrderSpec | server_py/flatgov/bills/views.py:349-350 | The table is a permutation with the first cosponsor first, the rest sorted by group and rank, and ties in their input order |
| BillViews.BillDetailView.constructor | server_py/flatgov/bills/views.py:120-124 | Holds the bill's stored fields and starts with an empty `identical_bill_numbers` |
| BillViews.BillDetailView.CosponsorsDict | server_py/flatgov/bills/views.py:277-350 | The method computes the cosponsor table of `DisplayedCosponsors`: sorted, sponsor placed, enriched, then grouped and ordered |
| BillViews.BillDetailView.GetIdenticalBillNumbers | server_py/flatgov/bills/views.py:369-379 | An error in the score leaves the field unchanged. Otherwise the field and the result are the sorted selection of identical numbers |
| BillViews.BillDetailView.RelatedBillNumbers | server_py/flatgov/bills/views.py:178-186 | The numbers and congress the related-document queries use, from the slug and the field |
| BillViews.BillDetailView.CosponsorsForSameBills | server_py/flatgov/bills/views.py:382-421 | The method computes `SameBillsCosponsors` from the bill's number and the field |
| BillViews.BillDetailView.CrsReportBillNumbers | server_py/flatgov/bills/views.py:197-201 | The corrected CRS query numbers |

## Left out

- File I/O is not modelled. `loadJSON` becomes the `load` parameter, the directory walk becomes a listing parameter, and `saveBillsMeta` appends a snapshot instead of writing `billsMeta.json` and its gzip copy.
- `loadBillsMeta`, `testWalkDirs`, `logName`, the logging calls, and the argument parsing and `main` are not modelled. They only print, read files or parse arguments.
- `CURRENT_CONGRESSIONAL_YEAR`, `CURRENT_CONGRESS` and `CURRENT_SESSION` are not modelled. They come from the clock and the core does not use them.
- BillData.Aggregator.UpdateBillsMeta: requires every listed directory to lie under `../congress/data`, as `os.walk` from that root guarantees. Under that requirement `getTopBillLevel` never raises inside the walk.
- BillData.Aggregator.UpdateBillsMeta: the walk's call list is computed before the files are processed. The walk has no effects, so the state is the same as interleaving.
- `updateBillsMeta`'s shared mutable default `billsMeta={}` is not modelled: the starting map is the constructor's argument. The `congress` argument is unused in the source.
- Python dict key order is not modelled (maps). Python's cross-type equality (`1 == 1.0 == True`) is not modelled: values of different kinds are unequal.
- Floating-point rounding in the score comparison is not modelled: scores are reals.
- BillViews.SortByName: the model raises TypeError whenever there are two or more cosponsors and some name is not a string. Python raises only on a comparison it does not support, such as a string against None or None against None. Names that compare with each other without error, such as all integers or integers mixed with floats, sort normally in Python; the model does not capture that case.
- BillViews.PlaceSponsorMoves: the `try … except` around the name filter is not modelled, since `.get` on a dict cannot raise there. Setting `sponsor['sponsor'] = True` on the bill's stored sponsor dict, which persists on the object, is not modelled.
- BillViews.Enrich: `Cosponsor.objects.get` becomes the `lookup` parameter; a missing member (DoesNotExist) is `None`. Other exceptions caught by the same `except` are not modelled. The found row is always truthy, so `current` is True.
- BillViews.EnrichCosponsors: cosponsor dicts are updated in place in the source; the model builds new values. Because of that, the aliasing between the sorted list and the sponsor dict is not modelled.
- BillViews.MatchCommittee / BillViews.ApplyMemberships: the inner loops over memberships and committee dicts are modelled as functions, not as loops.
- BillViews.CurrentBillScoreSpec / BillViews.IdenticalNumbersMembers: every similar bill is modelled with a numeric `score` and a string `reason`. The source raises when they are missing, and those error paths are not modelled. A missing score gives TypeError at `current_bill_score > 0` or at `bill.get('score') - current_bill_score` (lines 365, 375). A missing reason gives AttributeError at `.split` (line 374).
- BillViews.GetCommitteesMap / BillViews.Relevant: the committees map accepts any value as a key. Python raises TypeError when a `committee_id` (line 273) or a membership's `committee` (line 409) is a list or a dict, because those cannot be hashed. That error path is not modelled, so StartEntry and MergeRowsFailure do not list it.
- BillViews.PlaceSponsor: the bill's sponsor is modelled as a dict. A sponsor that is None or another non-dict makes `sponsor['sponsor'] = True` (line 282) raise TypeError. That error path is not modelled in BillViews.BillDetailView.CosponsorsDict.
- BillViews.BillDetailView.CosponsorsForSameBills: `Bill.objects.get` and the cosponsor query become the `billIdOf` and `fetchRows` parameters. The keys the source adds to each row dict are modelled as the fields of a `Merged` value.
- BillViews.BillDetailView.GetIdenticalBillNumbers: `cleanReasons` and `sort_bills_for_congress` are parameters; `bills/utils.py` is not part of this model. The source discards the sort's return value, so the model treats it as sorting in place the one list that is both stored and returned.
- The Django request handling is not modelled: `get_context_data`, `post`, the feedback form, the email task, `similar_bills_view`, the Elasticsearch queries and the serializers.
- The Q-object queries of `get_related_statements`, `get_related_committees` and `get_related_cbo` are not modelled; only the bill numbers and the congress they filter on are.
- The CRS report context building in `get_crs_reports` (views.py lines 202-235) is not modelled: the URLs, the metadata and the intersection per report. Only the bill numbers queried are.
- The source's `deep_get` helpers are proved as `PyValues.DeepGet` lemmas, but no core operation calls them.

## Findings

| source | as written | input that shows it | evidently intended | confidence | as-written member | corrected member |
|---|---|---|---|---|---|---|
| server_py/flatgov/bills/views.py:199-201 | `get_crs_reports` tests `number[3:] not in bill_numbers`, but `bill_numbers` holds full numbers with their congress, so the test never excludes anything | slug `116hr1`, identical bill numbers `["116hr1"]`: the list queried is `["116hr1", "116hr1"]` | compare the whole number, so each bill number is queried once | not executed | BillViews.CrsBillNumbersAsWrittenRepeats | BillViews.CrsBillNumbers |
