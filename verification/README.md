# ffuuzz: a verified model of its core

This project models five parts of ffuuzz, an API fuzzer that records traffic, and
proves what they promise:

1. **Endpoint collapse** (`PathTrieSpec`, `EndpointTrie`, `CollapseTheory`,
   `CollapseRules`, `EndpointPaths`, `EndpointResolver`).  The trie of observed paths lives
   on the heap, as in the source; its meaning is the list of paths that were observed.
   Collapsing in place is rewriting that list, and the drain loop is a one-pass recursion.
2. **Minimizers** (`JsonTree`, `JsonMinimizer`, `ListMinimizer`, `XmlBodies`).  Delta
   debugging of JSON objects, sessions and multipart bodies under an oracle whose
   answers may change with time, and the flat form of XML bodies.
3. **The recording store** (`RecordingTables`, `RecordingReads`, `RecordingMerge`, `RecordingMergePlans`,
   `RecordingMergeTheorems`, `RecordingStore`, `RecordingHistory`, `MergePatterns`,
   `MergeEndToEnd`, `MergeExample`, `SqlLike`).  The transactions on two tables, statement by statement, and what
   they conserve in every order of the groups of a merge.
4. **Campaigns** (`CampaignLifecycle`, `CampaignEndings`, `CampaignDooms`, `CampaignListing`,
   `CampaignExamples`, `CampaignStore`, `TaskPipeline`, `PipelineStops`, `PipelineRuns`).  Two
   state machines over atomic steps: the compare-and-swap protocol of one campaign with any
   number of concurrent starts and stops, and the generator with its bounded channel
   and workers.
5. **Scheduling and browsing** (`PlannerTheory`, `PlannerScores`, `PlannerRuns`,
   `EndpointPlanner`, `RecordingTree`).  The endpoint planner, and the tree of recorded endpoints.

`Options`, `Endpoints`, `Labelling`, `NameLists`, `Sorting` and `SortedStrings` are
shared.  Verify everything with `dafny verify dfyconfig.toml`.

## What does not hold

Where a promise turned out to be false, the exact condition is proved instead:

- A merge can misplace exchanges, depending on the order of its groups, if one affected
  recording moves to the old path of another that moves on (`MergeTheorem`,
  `RowTheorem`; a case that a collapse produces is in `MergeExample`).  It cannot happen
  unless a collapsed key is a prefix or an extension of `{_}` (`KeysDecideSafety`,
  `SafeNeverCrosses`).
- A merge can fail and be rolled back as a whole, although internal/db/recordings.go:565-566
  promises only that recordings of active campaigns are skipped: a recording that it
  deletes may be linked to a campaign that is not active, or to a finding.
  All orders commit exactly under the condition of `CommitTheorem`; `SomeOrderRollsBack`
  is a case.
- MergeRecordings is documented to select the paths that start with a source prefix, but
  it uses the prefix as an unescaped pattern.  The two agree exactly if the prefix has no
  `%`, `_` or backslash (`RawPatternTheorem`).  A wildcard selects more; what is
  selected without being started by a source prefix keeps its path (`SamePathStays`).  A
  backslash can make the store miss a recording that the trie rewrites
  (`RawMissesItself`, `BackslashIsMissed`): a prefix misses something that it starts
  exactly if it misses itself (`RawMissTheorem`).
- The store replaces a prefix of the stored string, in which empty parts are kept, where the
  trie replaces one of the segments, which leave them out.  On any stored path they agree
  exactly if the first key that starts the part behind the parent is all of it, or no key
  starts that part and the trie replaces nothing either (`RewritingsAgree`).  They differ if
  a shorter key comes first (`RewritingsDiffer`), and if a doubled slash or a missing leading
  slash hides the segment from the store (`DoubledSlashDiffers`, `DoubledSlashIsMissed`,
  `BarePathDiffers`).
  The comment at internal/db/recordings.go:712-714 gives only a case in which they agree.
  `EndToEnd` puts selection, rewriting, commit and order together, for every stored path.
- A stop that takes effect before the run is launched leaves the campaign in STOPPING until
  the process is restarted: either while the status is STARTING, or while it is RUNNING
  and the planner then fails (`EndTheorem`; `EarlyStopSticks` is a case).
- The running map can lose the entry of a live run: exactly if an earlier run has its
  deferred delete still before it (`ListedTheorem`; `LateDeleteHides` is a case).
- The recovery leaves campaigns stuck exactly if more than 10000 have the same status
  (`RecoveredAll`).
- The floor of the planner can be missed exactly if the zero key is an endpoint, beside
  others, and the floor is at least 2 (`FloorTheorem`, `PlayTheorem`; `FloorCanBeMissed` is
  a case).

## How the source is modelled

- Map iteration and the order of selected rows are nondeterministic choices; statements hold for all of them.
- The ratio test `literal / observations > 0.3` is `10 * literal > 3 * observations`, which is exact.
- Ghost parameters carry the labelling of a tree: a map from paths to nodes.  The body of the inner
  loops of collapse and mergeChildren is a method of its own (`MergeChild`, `MergeNode`).
  A collapse that is detected always has keys, so the source's early exits for an empty key
  list do not occur.
- Each method of the resolver and of the planner is a critical section of its mutex.  Merge requests are
  returned instead of being executed.
- Replays are oracles indexed by the number of replays so far, which covers flaky answers and a
  context that is cancelled at any moment.
- The store models the unique index on endpoints, the foreign keys of campaigns and findings, and the cascading
  delete; a failing statement rolls the transaction back.  New ids, creation times and
  the set of active campaigns are inputs.
- A failing status update in the lifecycle leaves the row as it is; statements about
  landing are about runs in which no update fails.  The API admits starts only from CREATED,
  STOPPED, FINISHED and FAILED (internal/api/campaigns.go:105-115).
- In the pipeline a replay and the update that counts a test fail only once the context is
  cancelled (internal/replayer/replayer.go:131-164).
- Draws of random generators and the exploration term of the score are parameters; scores are real numbers.

## Model

| member | source | states |
|---|---|---|
| EndpointTrie.TrieNode.Observe | internal/endpoint/trie.go:30-43 | If the nodes on the heap form the trie of a list of paths, they form the trie of the list with the observed path added: no node is shared, every counter is the number of paths through its node. |
| EndpointTrie.TrieNode.CheckCollapse | internal/endpoint/trie.go:58-60 | Finds a shallowest collapsible node on a literal branch, in any map order, and finds none only if no literal-reachable node is collapsible; what that means in numbers is in RunShape and RunCollapses. |
| EndpointTrie.TrieNode.CheckCollapseAt | internal/endpoint/trie.go:62-95 | The same below a literal prefix above which nothing is collapsible; it never descends through a placeholder. |
| EndpointTrie.TrieNode.CountKinds | internal/endpoint/trie.go:67-75 | The number of literal children, and whether there is a placeholder child. |
| EndpointTrie.TrieNode.Collapse | internal/endpoint/trie.go:119-162 | Collapsing in place, with subtrees moved and merged, gives exactly the trie of the paths in which the literal segment after the parent is replaced by {_}; the returned keys are the literal children, each once; a missing parent changes nothing. |
| EndpointTrie.TrieNode.MergeChildren | internal/endpoint/trie.go:164-174 | Merging one subtree into another, disjoint one gives a proper tree made of their nodes only, whose counters are the sums of the counters. |
| EndpointTrie.TrieNode.MergeChild | internal/endpoint/trie.go:166-173 | One step of it: only the child at the key changes, by addition or by taking over the other subtree. |
| EndpointTrie.NodeView | internal/endpoint/trie.go:15-43 | A tree on the heap that stands for a list of paths has a node exactly for each prefix, with exactly the next segments as children and the number of paths as counter. |
| CollapseTheory.CollapseEffect | internal/endpoint/trie.go:58-162 | A collapse makes its parent and everything below it uncollapsible on literal branches, makes the literal nodes below it vanish, and changes the test for no other literal node. |
| CollapseTheory.AtMostOne | internal/endpoint/resolver.go:58-103 | In a trie that was collapse-free, one observation makes at most one literal-reachable node collapsible. |
| CollapseTheory.NewKid | internal/endpoint/resolver.go:58-103 | That node is a strict prefix of the observed path, to which the observation added a new child. |
| CollapseTheory.StepTheorem | internal/endpoint/resolver.go:58-103 | Observation and collapse leave the trie collapse-free, and the observed path is filed exactly as the position-only rewrite returns it. |
| CollapseTheory.RunTheorem | internal/endpoint/resolver.go:58-103 | After every run of observations from the empty trie nothing is left to collapse, and the path that was returned labels a node of the trie. |
| CollapseRules.RunShape | internal/endpoint/trie.go:97-115 | After every run of observations a literal node with a {_} child has at most one literal child, and one with three or more literal children has at most 0.3 times as many as observations. |
| CollapseRules.RunCollapses | internal/endpoint/trie.go:97-115 | An observation that leaves a literal node with a {_} child and two literal ones, or with three or more literal children that are more than 0.3 of its observations, collapses this node. |
| CollapseRules.RunKeeps | internal/endpoint/trie.go:97-115 | No other observation changes what was observed before. |
| CollapseRules.RunGeneralizes | internal/endpoint/resolver.go:58-103 | Every observation stays in the trie, each with some segments replaced by {_} and no other change. |
| CollapseTheory.CollapseRemovesLiterals | internal/endpoint/resolver.go:134-166 | Every collapse strictly reduces the set of literal nodes. |
| CollapseTheory.CollapseKeepsOnePass | internal/endpoint/resolver.go:134-166 | No collapse of the drain loop changes what the one-pass recursion makes of the trie. |
| CollapseTheory.DrainTheorem | internal/endpoint/resolver.go:134-166 | Whatever the order of the maps, the drain loop makes at most one collapse per literal node, and when it stops the trie is that of the one-pass top-down recursion. |
| CollapseTheory.OnePassIsFree | internal/endpoint/resolver.go:134-166 | The one-pass result has nothing left to collapse, although it judges all nodes by the counts at the start. |
| CollapseRules.OnePassGeneralizes | internal/endpoint/resolver.go:134-166 | Nor does draining lose or change a stored path otherwise than by replacing segments by {_}. |
| EndpointResolver.Drain | internal/endpoint/resolver.go:134-166 | The loop terminates with the one-pass trie; its merge requests are those of its collapses, in order, each with the keys of the trie at that moment. |
| EndpointResolver.Resolver.ObservePath | internal/endpoint/resolver.go:58-103 | Keeps every trie settled; the returned path has the segments under which the observation is filed; a merge is requested exactly for the one collapse; the other origins stay as they are. |
| EndpointResolver.RequestTheorem | internal/endpoint/resolver.go:58-103 | A merge is requested exactly when the observation leaves a literal node with a {_} child and two literal ones, or with three or more literal children that are more than 0.3 of its observations: for that node, with its literal children, and the path gets {_} behind it. |
| EndpointResolver.Resolver.TrieShape | internal/endpoint/trie.go:97-115 | Between calls no trie of the resolver has a literal node of this kind. |
| EndpointResolver.Resolver.RebuildFromDB | internal/endpoint/resolver.go:108-172 | Every origin that is listed with its paths gets the drained trie of these paths, and no other origin changes; the requests are those of the drains, one after the other. |
| EndpointResolver.ObservableCount | internal/endpoint/resolver.go:125-131 | In the trie that is drained, every node below the root counts the stored paths whose segments run through it. |
| EndpointResolver.RebuildAsks | internal/endpoint/resolver.go:119-169 | The requests of each origin stand among those of the rebuild in one piece. |
| EndpointResolver.Resolver.DrainCollapses | internal/endpoint/resolver.go:200-241 | After a merge there is never anything left to drain: no request, no change. |
| EndpointPaths.RewritePath | internal/endpoint/resolver.go:245-256 | The path string of the segments with the one at the position replaced; the original path if the position is out of range. |
| EndpointPaths.JoinSegments | internal/endpoint/resolver.go:259-268 | Joins segments with slashes. |
| EndpointPaths.CollapsedPatterns | internal/endpoint/trie.go:176-197 | One source pattern per key and the target pattern, behind the path of the parent. |
| EndpointPaths.SplitPathSegments | internal/endpoint/normalize.go:119-129 | The non-empty segments, none of which contains a slash. |
| EndpointPaths.SegmentsOfPathString | internal/endpoint/normalize.go:119-129 | Reading back the path string of a segment list gives the list. |
| EndpointPaths.SegmentsConcat | internal/endpoint/normalize.go:119-129 | A slash separates segments: those of s/t are those of s and those of t. |
| EndpointPaths.JoinSplit | internal/endpoint/normalize.go:48-58 | Splitting at a separator and joining is the identity, and the parts are free of the separator. |
| EndpointPaths.SplitJoin | internal/endpoint/normalize.go:48-58 | Joining parts free of the separator and splitting is the identity. |
| EndpointPaths.NormalizePath | internal/endpoint/normalize.go:33-59 | The loop over the split path computes the normal form. |
| EndpointPaths.NormalizeIdempotent | internal/endpoint/normalize.go:33-59 | Normalisation is idempotent for every classifier of segments. |
| EndpointPaths.NormalizeKeepsShape | internal/endpoint/normalize.go:33-59 | It replaces exactly the non-empty parts that are parameters by {_}; all other parts, their number and the leading slash stay. |
| EndpointPaths.SameNormalForm | internal/endpoint/key.go:5-12 | Two paths have the same normal form if and only if their parts are the same, but for parameters. |
| JsonMinimizer.RemoveKeysSound | internal/triage/triage.go:365-411 | For every oracle, flaky or cancelled: the result only lacks keys, is the input or has passed a replay, and takes at most 3n-2 replays on n keys. |
| JsonMinimizer.RemoveKeysMinimal | internal/triage/triage.go:365-411 | For a steady upward-closed oracle that accepts the input, the result is accepted and no remaining key of the range can be spared, also when keys of the range were already gone. |
| JsonMinimizer.OneKeyIsFoundFast | internal/triage/triage.go:365-411 | If the anomaly needs one key and nothing else, at most two replays per halving of the keys and one more are made. |
| JsonMinimizer.SecondHalfFirst | internal/triage/triage.go:388-397 | If the second half of the keys triggers alone, nothing of the first half stays. |
| JsonMinimizer.CancelledRemovesNothing | internal/triage/triage.go:399-404 | After a cancellation nothing is removed, and at most two candidates are tried. |
| JsonMinimizer.DeltaDebugKeys | internal/triage/triage.go:334-363 | The same for nested objects: a subtree that is the input or has passed, within three replays per key; for a steady upward-closed oracle deleting any one key down to the depth limit makes it fail; below that limit keys go only with a key above them. |
| JsonMinimizer.MinimizeObject | internal/triage/triage.go:299-331 | An object that is returned is strictly smaller and has passed a replay, within three replays per key; what stands, it or the input, is minimal in the first six levels for a steady upward-closed oracle, and deeper levels are untouched. |
| JsonMinimizer.CountKeysOf | internal/triage/triage.go:458-466 | Counts the keys of an object and of the objects in it. |
| JsonTree.CountStrict | internal/triage/triage.go:303-324 | The key count is strictly monotone in the order of removed keys, so an equal count means that nothing was removed. |
| JsonTree.DeleteMonotone | internal/triage/triage.go:334-363 | A key that can be deleted from a subtree can be deleted from the whole, and deleting keeps the order: what makes single deletions comparable between levels. |
| ListMinimizer.MinimizeSession | internal/triage/triage.go:190-230 | A subsequence that keeps the first exchange, is the input or triggered in a replay, takes at most n-1 replays and none after a cancellation; unless cancelled, every other exchange that is kept failed to be spared with all earlier ones still there; for a steady upward-closed trigger none can be dropped. |
| ListMinimizer.MinimizeParts | internal/triage/triage.go:953-985 | The same for every part of a multipart body; a cancelled context is an error, no change gives nothing. |
| XmlBodies.ParseXMLToMap | internal/triage/triage.go:810-840 | The loop over the tokens with its stack of open elements reads the flat map. |
| XmlBodies.TrimTheorem | internal/triage/triage.go:830-836 | Trimming takes away exactly the spaces at both ends. |
| XmlBodies.LastTextCounts | internal/triage/triage.go:830-836 | A text that is not blank becomes the value of the open elements, whatever they had before. |
| XmlBodies.EndCloses | internal/triage/triage.go:826-829 | An end tag closes the innermost open element. |
| XmlBodies.MapToXML | internal/triage/triage.go:842-873 | Reading back the document written for a flat map gives the map with its texts trimmed and the blank ones gone, for all keys, also those that are prefixes of others; the elements stand in the order of the keys, and nothing is written for the empty map. |
| XmlBodies.ReadBackTheorem | internal/triage/triage.go:810-873 | Writing and reading is the identity if and only if all texts are trimmed and not empty. |
| RecordingTables.NextSeqOfList | internal/db/recordings.go:661-670 | With dense sequence numbers MAX(seq_order) + 1, or 0, is the number of rows. |
| RecordingTables.CountOfList | internal/db/recordings.go:695-702 | COUNT(*) is the length of the list of rows. |
| RecordingTables.CreateKeepsBooks | internal/db/recordings.go:146-159 | A new recording has its exchanges as rows 0 to n-1; the others keep theirs. |
| RecordingTables.AppendKeepsBooks | internal/db/recordings.go:416-434 | Appended exchanges follow those of the recording without collision; the others keep theirs. |
| RecordingReads.CreateGains | internal/db/recordings.go:146-159 | Read in the order of sequence numbers, a new recording gives the exchanges of the session, and all others give what they gave before. |
| RecordingReads.AppendGains | internal/db/recordings.go:416-434 | Read in the order of sequence numbers, a recording that is appended to gives what it gave before and then the exchanges of the session; all others give what they gave before. |
| RecordingReads.ReadCount | internal/db/recordings.go:146-159 | entry_count is the number of exchanges that are read. |
| RecordingMerge.MergeSourceMoves | internal/db/recordings.go:673-689 | Once the rows of a source are moved, the cascading delete of the source finds no row. |
| RecordingMerge.MergeSourcesKeep | internal/db/recordings.go:654-693 | Merging sources into a keeper keeps sequence numbers dense: the rows of each source stand together and in order behind those of the keeper, every row keeps its content, all other recordings stay. |
| RecordingMerge.MergeGroupKeeps | internal/db/recordings.go:621-704 | After a group its recordings are one, at the new path, with a correct entry count, whether the keeper was found there or renamed. |
| RecordingMergePlans.PlanKeeps | internal/db/recordings.go:620-704 | After any number of groups in any order the tables are in order, and recordings outside these groups are untouched, with their rows. |
| RecordingMergePlans.UnaffectedStay | internal/db/recordings.go:568-614 | A recording that the request does not affect, such as one linked to a RUNNING or STARTING campaign, is not deleted, not renamed and loses no exchange. |
| RecordingMergePlans.NoCrossingArrives | internal/db/recordings.go:562-710 | Without crossing recordings every exchange survives unchanged in every order of the groups, and ends where the selection and the rewriting of the store put its recording: at the rewritten path if the patterns select it, else at its own. |
| RecordingMergePlans.SamePathStays | internal/db/recordings.go:618-704 | A recording that no source prefix starts keeps its path and its rows in every order, also when a pattern selects it. |
| RecordingMergeTheorems.CommitTheorem | internal/db/recordings.go:672-691 | Every order of the groups commits if and only if no referenced recording is one that some order deletes: an affected one whose path changes while another recording is at the new path or moves there too. |
| RecordingMergeTheorems.RowTheorem | internal/db/recordings.go:562-710 | All orders take a given exchange to a given endpoint if and only if all orders commit, the endpoint is the destination of the exchange, and its recording is not crossed. |
| RecordingMergeTheorems.CrossingMisplaces | internal/db/recordings.go:620-704 | If the new path of r is the old path of s while s moves on, and the group of s comes last, exchanges of r end up at the new path of s. |
| RecordingMergeTheorems.MergeTheorem | internal/db/recordings.go:562-710 | All orders of the groups commit and conserve exchanges and rewritten paths if and only if nothing that some order deletes is referenced, and no two affected recordings cross. |
| RecordingMergePlans.MergeKeepsOrder | internal/db/recordings.go:654-703 | A merge keeps sequence numbers dense; surviving recordings keep their rows in front; the rows of every recording stay together and in order. |
| RecordingMergePlans.MergeKeepsCreation | internal/db/recordings.go:620-704 | A merge creates no recording and changes no time of creation. |
| RecordingHistory.HistoryTheorem | internal/db/recordings.go:129-710 | In every sequence of upserts, appends, merges and campaign changes: sequence numbers are 0 to entry_count-1, no stored exchange is lost or changed, none leaves its order. |
| RecordingHistory.StoredTheorem | internal/db/recordings.go:129-710 | The multiset of all stored exchanges is the first one and the exchanges of the accepted sessions: those upserted with a new id and a new endpoint, and those appended or filed under a new id. |
| RecordingHistory.HistoryIsDense | internal/db/recordings.go:129-710 | So it is for every history from empty tables. |
| RecordingStores.RecordingStore.InsertExchanges | internal/db/recordings.go:440-469 | Inserts the exchanges in order, numbered from the start value. |
| RecordingStores.RecordingStore.Upsert | internal/db/recordings.go:127-165 | Skips exactly the known ids, fails exactly on a taken endpoint without a change, else creates the recording, from which the exchanges of the session are read in order; all others are read as before. |
| RecordingStores.RecordingStore.FindOrAppend | internal/db/recordings.go:372-438 | Appends to the recording of the endpoint, which is unique, or creates it under the new id: its exchanges are read as before and then those of the session, all others as before; entry_count grows by their number, the time of creation is the later one. |
| RecordingStores.RecordingStore.SelectAffected | internal/db/recordings.go:577-611 | Selects exactly the affected recordings, each once. |
| RecordingStores.RecordingStore.GroupByPath | internal/db/recordings.go:618-634 | Groups them by their new path. |
| RecordingStores.RecordingStore.MoveAndDelete | internal/db/recordings.go:661-691 | Moves the rows of a source and deletes it, or fails on a reference to it. |
| RecordingStores.RecordingStore.MergeOneGroup | internal/db/recordings.go:637-704 | Processes one group, or fails exactly when its statements do; merged counts the recordings that were deleted. |
| RecordingStores.RecordingStore.MergeRecordings | internal/db/recordings.go:562-710 | Runs the statements of all groups in some order: if they succeed, the tables are their result and merged is the number of recordings removed; if one fails, nothing changes, and some recording that an order deletes is referenced. Without crossings every exchange arrives; recordings of active campaigns stay. |
| MergePatterns.RewriteTargetPathByParts | internal/db/recordings.go:712-722 | On every path, replacing the first matching prefix changes one part between slashes, the one behind the parent: its start by the first key that starts it; all other parts stay, also the empty ones. |
| MergePatterns.RewritingsAgree | internal/db/recordings.go:712-722 | On every path, replacing the first matching prefix gives the segments that the trie gives it, if and only if: when some key starts the part behind the parent, the first one that does is all of it; when none does, the trie replaces nothing either. |
| MergePatterns.PathStringsAgree | internal/endpoint/resolver.go:245-256 | On a path that the resolver writes, the two strings are equal if and only if the first key that starts the segment behind the parent, if any, is the whole segment. |
| MergePatterns.RewrittenSegmentsDiffer | internal/db/recordings.go:712-722 | A path that the store changes gets other segments. |
| MergePatterns.RewritingsDiffer | internal/db/recordings.go:712-722 | A concrete case: with the keys a and ab in this order, /ab becomes /{_}b, not /{_}. |
| MergePatterns.DoubledSlashDiffers | internal/endpoint/normalize.go:119-129 | A concrete case: below a with the key b, the store leaves /a//b, and the trie makes a, {_} of its segments. |
| MergeEndToEnd.DestinationAgrees | internal/db/recordings.go:577-622 | For every stored path, selection and rewriting give a recording a path with the segments of the trie, if and only if: when it is selected, the two rewritings agree on it; when it is not, the trie does not rewrite it either. |
| MergeEndToEnd.EndToEnd | internal/db/recordings.go:562-722 | For every stored path, all orders of the merge of a collapse take an exchange to a recording with the segments of the trie, if and only if all orders commit, its recording is not crossed, and selection and rewriting agree with the trie as in the row above. |
| MergeEndToEnd.PlainSelection | internal/db/recordings.go:579-599 | If no source prefix has a special character, the patterns select exactly the paths that a source prefix starts. |
| MergeEndToEnd.BackslashIsMissed | internal/db/recordings.go:579-599 | A concrete case: a stored path with a backslash is rewritten by the trie, but its own pattern does not select it. |
| MergeEndToEnd.DoubledSlashIsMissed | internal/db/recordings.go:579-599 | A concrete case: the stored path /a//b is rewritten by the trie, but the pattern /a/b does not select it. |
| MergePatterns.BarePathDiffers | internal/endpoint/normalize.go:119-129 | On a path without a leading slash, they agree if and only if the trie replaces nothing. |
| MergePatterns.NoProperStartAgrees | internal/db/recordings.go:712-722 | They agree in every order of the keys if the part behind the parent is not empty and no key is a proper start of it. |
| MergePatterns.AtMostOneSource | internal/db/recordings.go:712-722 | Among source prefixes of which none starts another, at most one starts a given path. |
| MergeEndToEnd.SafeNeverCrosses | internal/db/recordings.go:618-634 | If no source prefix is comparable with the target prefix, no recordings cross, whatever is in the tables. |
| MergeEndToEnd.KeysDecideSafety | internal/endpoint/trie.go:176-197 | The request of a collapse has this property if and only if no collapsed key is a prefix or an extension of {_}. |
| MergeExample.RequestIsOfCollapse | internal/endpoint/resolver.go:58-103 | Observing a, ab and {_}b makes the root collapse, and the request of this collapse is that of the next row. |
| MergeExample.SomeOrderMisplaces | internal/db/recordings.go:562-710 | On two stored recordings among these paths, some order of the groups of this request commits and misplaces an exchange. |
| MergeExample.SomeOrderRollsBack | internal/db/recordings.go:672-691 | On two stored recordings that this request moves to the same path, one of them referenced but not active, some order of the groups fails and the merge is rolled back. |
| SqlLike.EscapeIsPerCharacter | internal/api/validate.go:90-97 | The three successive replacements escape every special character once. |
| SqlLike.EscapeLikeTheorem | internal/api/validate.go:90-97 | LIKE with the escaped prefix and a final % matches exactly the texts with that prefix. |
| SqlLike.RawPatternTheorem | internal/db/recordings.go:583-588 | An unescaped prefix used as a pattern selects exactly the texts that it starts, if and only if it has no special character; with one it selects a text that it does not start. |
| SqlLike.RawMissTheorem | internal/db/recordings.go:583-588 | An unescaped prefix used as a pattern selects every text that it starts, if and only if it selects itself. |
| SqlLike.RawMissesItself | internal/db/recordings.go:583-588 | With a backslash it can miss the very path it was made from. |
| SqlLike.RawMatchesMore | internal/db/recordings.go:583-588 | A concrete case of selecting more: _ is a wildcard. |
| CampaignLifecycle.AtMostOneOwner | internal/engine/engine.go:91-168 | In every interleaving of starts, runs, stops and restarts, with or without failing updates, at most one start owns the campaign, whose status is then STARTING, RUNNING or STOPPING. |
| CampaignLifecycle.UnownedStatus | internal/engine/engine.go:91-168 | Without failing updates, a campaign without owner can be started again or is in STOPPING. |
| CampaignLifecycle.OwnerLeaves | internal/engine/engine.go:390-408 | The final pair of updates of a launched run always lands FINISHED or STOPPED; a start that gives up lands FAILED exactly if no stop came before. |
| CampaignEndings.LandingTheorem | internal/engine/engine.go:390-408 | Over every run without failing updates, a campaign run lands STOPPED if it was cancelled before its workers were done, else FINISHED. |
| CampaignEndings.CancelledLandsStopped | internal/engine/engine.go:390-408 | A run that is cancelled while its workers are at work lands STOPPED, whatever else happens. |
| CampaignEndings.UncancelledLandsFinished | internal/engine/engine.go:390-408 | A run that nobody has cancelled when it lands, lands FINISHED. |
| CampaignEndings.FirstUpdateLands | internal/engine/engine.go:399-408 | Also with failing updates, a run leaves after its first final update only if that took it from RUNNING to its final status. |
| CampaignEndings.StopTheorem | internal/engine/engine.go:433-482 | When a stop of a working run is done, by a user or at shutdown, the run is cancelled, and the status is STOPPING until it lands, if no update has failed. |
| CampaignEndings.FailedStopCancels | internal/engine/engine.go:442-453 | A stop whose update fails makes no other one and still cancels the run. |
| CampaignEndings.StopAllSparesStarting | internal/engine/engine.go:475-481 | A stop at shutdown never makes the second update, by which a stop takes a STARTING campaign to STOPPING. |
| CampaignLifecycle.CanStart | internal/engine/engine.go:91-168 | A start that nothing disturbs works from every startable status: the campaign is RUNNING, and its run is listed. |
| CampaignListing.MapTheorem | internal/engine/engine.go:126-168 | In every interleaving the running map holds only a start that still deletes its entry, and one that failed after it was RUNNING is cancelled. |
| CampaignDooms.DoomedForever | internal/engine/engine.go:142-148 | If a stop takes effect before the run is launched and the start gives up, the status stays STOPPING until a restart, whatever else happens. |
| CampaignDooms.EarlyStopDooms | internal/engine/engine.go:442-447 | A stop that lands while the status is STARTING dooms the campaign in this way. |
| CampaignDooms.DoomedBy | internal/engine/engine.go:433-482 | Without failing updates nothing else dooms it than a stop that takes the status to STOPPING, or a planner that fails under a stop. |
| CampaignDooms.EndTheorem | internal/engine/engine.go:433-454 | From a reachable state without failed updates the campaign can still reach a startable state if and only if it is not doomed in this way. |
| CampaignExamples.EarlyStopSticks | internal/engine/engine.go:142-148 | A concrete run: a stop that lands while the status is STARTING leaves STOPPING for good. |
| CampaignListing.ListedTheorem | internal/engine/engine.go:178-182 | A live run that is in the running map stays there for as long as it lives, whatever else happens, if and only if no other run has its deferred delete still before it. |
| CampaignExamples.LateDeleteHides | internal/engine/engine.go:178-182 | A concrete run: the deferred delete of one run removes the entry of its successor, which no stop can find then. |
| CampaignLifecycle.RestartRecovers | internal/engine/engine.go:491-518 | The recovery leads every state back to an initial one, and changes only states that were stuck. |
| CampaignStores.CampaignStore.UpdateStatus | internal/db/campaigns.go:203-232 | A compare-and-swap on the status. |
| CampaignStores.CampaignStore.RecoverStuckCampaigns | internal/engine/engine.go:491-518 | Of each stuck status at most one page of campaigns becomes STOPPED; no other campaign changes. |
| CampaignStores.RecoveredAll | internal/engine/engine.go:491-518 | Nothing is left stuck if and only if none of STARTING, RUNNING and STOPPING has more than 10000 campaigns. |
| TaskPipeline.FinishedTheorem | internal/engine/engine.go:248-397 | Generated tasks never exceed max_tests nor run ahead of the channel, which holds two per worker, of which there are four by default; a run that ends FINISHED has counted every task, tests_done is their number, and it is max_tests if that limit stopped the generator. |
| TaskPipeline.CountedOnce | internal/engine/worker.go:423-426 | Counting a task always adds one that was not counted before. |
| TaskPipeline.NeverBlocks | internal/engine/engine.go:325-391 | Generator, bounded channel and workers never deadlock: until the final status something other than a cancellation can happen. |
| TaskPipeline.RunsAreBounded | internal/engine/engine.go:325-391 | With max_tests set every run of the pipeline is shorter than a fixed bound, so it ends. |
| PipelineStops.DeadlineTheorem | internal/engine/engine.go:339-346 | With a deadline: once the generator has seen that the timer fired, no task is sent any more, and the run ends within a number of events that depends on the workers only. |
| PipelineStops.CancelSeen | internal/engine/engine.go:333-386 | So it is once it has seen a cancellation, at the head of the loop, at the rate limiter or at the channel. |
| PipelineStops.CancelTheorem | internal/engine/engine.go:325-388 | After a cancellation at most one more task is sent, and the run ends. |
| PipelineStops.ClosedTheorem | internal/engine/engine.go:325-388 | The channel is closed only because max_tests is reached, a set deadline has passed, or the run was cancelled. |
| PipelineRuns.GoesOn | internal/engine/engine.go:325-388 | Otherwise any number of tasks can be sent and counted, up to max_tests if that is set. |
| PipelineRuns.ChannelFills | internal/engine/engine.go:243-248 | The channel takes two tasks per worker before anybody receives one. |
| PipelineStops.CancelledWorkers | internal/engine/worker.go:270-285 | Once the run is cancelled, a waiting worker can leave although tasks are in the channel, and a worker with a task can drop it. |
| PipelineStops.DroppedForGood | internal/engine/worker.go:423-426 | A task that was dropped is never counted. |
| PlannerTheory.TotalOfPicks | internal/engine/planner.go:169-195 | The counts of all keys add up to the number of picks. |
| PlannerTheory.FairPicksAreLevel | internal/engine/planner.go:160-195 | No key exceeds the floor while another is below it, unless the zero key can spoil the floor. |
| PlannerTheory.FloorIsReached | internal/engine/planner.go:160-195 | After floor times the number of keys picks, every key was picked floor times. |
| PlannerTheory.FloorTheorem | internal/engine/planner.go:160-195 | The floor is kept in every sequence of picks that the counters allow, if and only if the zero key is not among the keys, or the floor is at most 1, or there is only one key. |
| PlannerTheory.FloorCanBeMissed | internal/engine/planner.go:160-195 | A concrete case: the zero key and one other key, with floor 2. |
| PlannerScores.RewardCanWin | internal/engine/planner.go:199-241 | For every exploration term some reward makes a key the best one, if its counters allow that it wins. |
| PlannerScores.ScoreParts | internal/engine/planner.go:204-226 | A reward raises the score of a tried key by its weight times the share of the reward in the mean; without rewards the score is the weight times the exploration term, whose total is at least one. |
| PlannerScores.BestIsFirst | internal/engine/planner.go:199-228 | No key has a higher score than the chosen one, and those with the same score come after it. |
| PlannerScores.ChoiceTheorem | internal/engine/planner.go:169-241 | The counters allow a choice if and only if some draw makes the planner choose the key after some reward for it. |
| PlannerRuns.PlayTheorem | internal/engine/planner.go:160-241 | From fresh counters, with any weights and exploration term, some draws, and some rewards between the picks, make the planner return a given sequence of picks, if and only if the counters allow each of them in its turn. |
| PlannerTheory.FirstPicksInOrder | internal/engine/planner.go:197-228 | Without a floor the first picks try every key once, in sorted order. |
| PlannerTheory.KeyOrder | internal/engine/planner.go:113-119 | Keys are sorted by method, and by path for the same method. |
| SortedStrings.LeqTheorem | internal/engine/planner.go:113-119 | A string comes before another one if it is a prefix of it, or has the smaller character where they first differ. |
| EndpointPlanning.CollectRefs | internal/engine/planner.go:86-92 | Lists exactly the exchanges of every key, each once, in the order of the seeds. |
| EndpointPlanning.KeyTheorem | internal/endpoint/key.go:5-33 | Two requests are for the same endpoint if and only if they have the same method, verbatim, and paths that differ only in parameters. |
| EndpointPlanning.ApplyOverride | internal/engine/planner.go:134-158 | Disables or reweights exactly the keys on the path of the override, with its method if it has one. |
| EndpointPlanning.DisabledTheorem | internal/engine/planner.go:138-158 | An endpoint is disabled exactly by an override for its path that has its method or none. |
| EndpointPlanning.WeightTheorem | internal/engine/planner.go:138-158 | Of the overrides for its path, with its method or none, that do not disable it and have a positive weight, the last one gives its weight. |
| EndpointPlanning.DefaultWeight | internal/engine/planner.go:106-108 | Without one the weight is 1. |
| EndpointPlanning.NewEndpointPlanner | internal/engine/planner.go:64-132 | Fails exactly on a negative floor or without enabled endpoint; else the keys are the enabled endpoints in order, with the last weight that applies and all their exchanges. |
| EndpointPlanning.EndpointPlanner.ArgmaxUCB | internal/engine/planner.go:199-228 | The first of the keys with the largest score. |
| PlannerScores.BestWins | internal/engine/planner.go:199-228 | While a key has no observations, the best key is the first of those. |
| EndpointPlanning.EndpointPlanner.Choose | internal/engine/planner.go:169-189 | The drawn key below the floor, if there is one and it is not the zero key; else the best key. |
| EndpointPlanning.EndpointPlanner.Pick | internal/engine/planner.go:160-195 | The key is the one that the draw and the scores determine; the returned exchange is in bounds and has the returned key; exactly one counter and the total grow by one. |
| EndpointPlanning.EndpointPlanner.Reward | internal/engine/planner.go:230-241 | Adds to one reward sum and to no counter. |
| EndpointPlanning.EndpointPlanner.RecordFinding | internal/engine/planner.go:243-253 | Adds a finding and a reward of 5 to one key and to no counter. |
| EndpointPlanning.EndpointPlanner.Scheduling | internal/engine/planner.go:160-253 | In every interleaving: totalN is the sum of the counts, the floor is kept unless the zero key spoils it, and without a floor keys are tried in order. |
| RecordingTree.CountSplits | internal/api/recordings.go:299-303 | The entries under a path are those at it and those under one of its children, each child taken once. |
| RecordingTree.ShownTotal | internal/api/recordings.go:299-303 | The total of a node is its own count and the totals of the children shown. |
| RecordingTree.Insert | internal/api/recordings.go:270-280 | Inserting an entry into the trie of a list of entries gives the trie of the longer list: own counts, last paths and the shape of the tree. |
| RecordingTree.ToTreePathNodes | internal/api/recordings.go:282-314 | The nodes shown are exactly the children, strictly sorted; each counts all entries under its path, and shows the path of its last entry or the one it continues. |
| RecordingTree.OriginPlaces | internal/api/recordings.go:282-314 | The path shown for a node, at every depth, has the segments that lead to the node. |
| RecordingTree.ShownBehind | internal/api/recordings.go:291-296 | Without an entry of its own a node shows the path above it, less slashes at its end, and its segment behind one slash. |
| RecordingTree.PathAtLast | internal/api/recordings.go:270-280 | Of several entries with the same segments the path of the last one is shown. |
| RecordingTree.EachInItsOrigin | internal/api/recordings.go:208-224 | Every entry is in the list of its origin, as often as it occurs, and in no other. |
| RecordingTree.OriginOrder | internal/api/recordings.go:226-235 | Origins are sorted by scheme, then by host, then by port. |
| RecordingTree.BuildTree | internal/api/recordings.go:208-260 | Exactly the origins of the entries, strictly sorted; the total of each is the count of its entries, which is the count at the root and the totals of the nodes shown. |

## Left out

- HTTP handlers, the proxy, certificates, the command line, the front end, logging and metrics.
- SQL text and drivers: each transaction or single update is an atomic step on abstract tables, without connection errors.
- Network replay, cookies, variable extraction, detectors and language-model calls: replaced by oracles.
- The regular expressions of isParameter: an arbitrary predicate on segments.
- Logarithm and square root in the score, and regret: the exploration term is an arbitrary real function.
- Mutators, severity and grouping tables, intensity and feedback weights.
- The mutex and the goroutines of the engine as code: internal/engine/engine.go and internal/engine/worker.go are state machines on values over their atomic steps, and processTask is reduced to its early returns and its count.
- Sharing of nested maps between a JSON object and its reduced form: the minimizer works on values; the source writes only reductions that it has accepted.
- Escaping in XML, and names that are not XML names: the flat form is treated on tokens.
- Building and parsing multipart and base64 bodies around the loops that minimize them.
- Agreement between trie and database while merges run asynchronously: a recording can be inserted after the merge that concerns it.
- Other campaigns in the lifecycle: updates and the running map are keyed by campaign, so one campaign is modelled.
- CreateKeepsBooks: covers the insertion itself; that the id is new and the endpoint free is checked by the methods that call it.
