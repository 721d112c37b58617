# Verification of clangquill's core

clangquill parses C++ sources into an intermediate representation (IR) and renders it as
documentation pages. This project models the parts of it where the code is clearly harder than
what it is for, and proves that the two agree:

- **StreamScheduler** — the worker threads and the consumer of `parse_files` as a step system
  over any interleaving, with lost, spurious and owed wakeups; deadlock freedom, bounded runs,
  bounded backlog and refinement of the one-thread loop.
- **Batches, IncludeClosure, Diagnostics, CarriedDiagnostics** — how inputs are cut into batches,
  which files an input reaches, and how diagnostics are merged across batches and carried across
  builds, against what a full parse would report.
- **IncrementalParse, IncludeParser, BuildCache, Pipeline, BuildRuns, MtimeGuard, Witnesses** —
  the incremental build: the tables of the cache, the partial re-parse, the page cache, the output
  directory, whole histories of writes and builds, the crash windows, why a matching timestamp
  may be trusted, and small projects that meet every hypothesis.
- **TokenText, TemplateHead** — the token-level parser of template parameter lists, against a
  printer, against a declarative description of the matching closer, and against what the returned
  text tells.
- **Fips180, HashConstants, Sha256, ContentHash** — the streaming digest against the Secure Hash
  Standard (FIPS 180-4), why its tables and functions are that standard's, and the length-framed
  content hash that is fed to it.
- **CommentMarkers, Words, CopyCommands, RawScan, CommentSections, ParsedComment, LeadOrder,
  Fence, CommentRows, CommentWitnesses** — the raw Doxygen scanner against the sections its lines hold,
  the fenced code printer against the CommonMark specification, and the row encoding of a comment
  with its two decoders.
- **Stems, Hierarchy, Toctree** — page file names, and the forest of pages that mirrors the
  namespaces.

`Arithmetic`, `Sequences` and `Wrappers` hold shared helpers. `dafny verify dfyconfig.toml` checks
everything.

Objects the sources update in place are classes here (`BuildCache`, `Workspace`, `OutputDir`,
`Sha256`, `CommentModel`, `Generator`), loops are loops, and each such method is proved to leave
the state that a specification function names; the theorems are about those functions and about
whole runs of them.

## Hypotheses

They appear as `requires` clauses or as parameters:

- *Parse locality* (`Toolchain.Local`): on the source trees a project may take on, the result for
  an input depends only on the files its parse reached. `IncludeParser` derives it for any parser
  that follows include directives, on trees in which every include is found at the first place
  it is looked up, and says exactly what happens on other trees. `RebuildIsFullExactlyWhen` needs
  no locality: it says which inputs must parse as before.
- *Full attribution* (`Toolchain.Attributed`): a parse reaches its input and only files on disk,
  and every file row of the IR is reached by some input; and *one spelling per file*. The sources
  do not quite meet them: `parse_file` notes raw spellings (src/cpp/parser/parser.cpp:207, 862)
  while `record_file` normalises (src/cpp/parser/parser.cpp:106), and `record_partial_parse` drops
  rows that no input references (src/clangquill/cache.py:449-457).
- *Inputs are files on disk* (`Toolchain.Admits`), as `_resolve_inputs` lists only such
  (src/clangquill/pipeline.py:193-227); an input that vanishes leaves the list, which is part of
  the parse fingerprint, and so everything is parsed afresh (`Project.Fp`).
- *A stat match implies equal content* (`Trusted`). `MtimeGuard` derives it from timestamps that
  truncate by at most two seconds, and says exactly when the tables meet it. `BuildRuns.RunBuilds`
  derives it for whole histories. All it asks of later writes is that one which follows a build
  that parses nothing shows in the stat of a tracked file (`Careful`), as healed rows carry no
  guard. The sources are taken to hold still during one build.
- *No digest is older than the parse that stores it* (`ReadDuring`). One process per build is
  enough; `record_file` keeps digests for the life of a process
  (src/cpp/parser/parser.cpp:101-145), and a process that builds twice can serve an old one.
- *A page key determines the page's text* (`Keyed`), and distinct contents have distinct digests:
  a digest that stands for a content is represented by that content.

`Witnesses` shows that the hypotheses can be met, and that every outcome of the scan is reached.

## Where the code falls short of the intent

Each is a lemma at a concrete input, beside the exact condition:

- A crash between the IR commit and the cache commit is missed when the sources return to the
  recorded version (`Witnesses.CrashThenReturnIsMissed`) or the configuration does
  (`OtherConfigurationIsKept`), and can leave a file row for good when they do not
  (`CrashLeavesARow`); the condition is `BuildRuns.CrashIsHealedExactlyWhen`.
- A crash between `record_outputs` and `record_render` is missed when the configuration returns
  (`Witnesses.CrashedPageIsServed`, `BuildRuns.CrashIsRenderedOverExactlyWhen`).
- A file created where an include had found none, or found another further along the search path,
  goes unnoticed (`Witnesses.CreatedFileIsMissed`, `IncludeParser.CreatedFileIsMissedExactlyWhen`).
- A healed row can miss an edit for good (`MtimeGuard.HealedRowCanMissAnEdit`,
  `HealedTableIsSoundExactlyWhen`), and so can the row of a file a partial re-parse did not read,
  edited between the scan and the parse (`UnreadRowCanMissAnEdit`), and one whose digest a process
  remembers from an earlier parse (`ServedDigestCanMissAnEdit`, `RememberedIsRightExactlyWhen`);
  for both the condition is `SnapshotIsSoundExactlyWhen`.
- A header several inputs read, edited between the scan and a partial re-parse of one of them, leaves
  the rows of the others behind for good (`Witnesses.SharedEditIsMissed`,
  `IncrementalParse.PartialIsFullExactlyWhen`).
- A partial re-parse drops a warning another input reports in a header the re-parsed one reads
  (`CarriedDiagnostics.WarningGoesMissing`, `CarriedIsFullExactlyWhen`).
- A fence whose language attribute holds a backtick, or whose lines hold a carriage return, is not
  read back as printed (`CommentWitnesses.BacktickLanguageDoesNotSurvive`,
  `CarriageReturnDoesNotSurvive`, `Fence.FenceRoundTrip`).
- A comment with a `\detail` command, or with `\param [in] x`, does not survive its rows
  (`CommentWitnesses.DetailDoesNotSurvive`, `BracketedNameDoesNotSurvive`,
  `ParsedComment.ParsedRoundTrip`).
- Of what stands behind a copy command only the target is kept
  (`CommentWitnesses.CopyTailIsDropped`, `ParsedComment.NoWordIsLost`).
- A code block that opens while a bullet list is open comes before the list
  (`CommentWitnesses.BlockOvertakesItsList`, `LeadOrder.BlockIsInOrderExactlyWhen`).
- Text behind a marker that names no command (`@ text`) runs past a blank line
  (`ParsedComment.BareMarkerRunsOn`, `BlankLineEnds`).

## Model

| member | source | states |
|---|---|---|
| StreamScheduler.StreamSerially | src/cpp/parser/parser.cpp:1324-1334 | the one-thread loop hands the sink every batch in order, or everything up to the first batch the sink throws on |
| StreamScheduler.SerialResultIsUnique | src/cpp/parser/parser.cpp:1324-1334 | the one-thread loop has exactly one possible outcome, so it can serve as the reference |
| StreamScheduler.StepClaims | src/cpp/parser/parser.cpp:1288-1295 | every step keeps that a claimed batch is held by exactly one worker or has been published |
| StreamScheduler.StepCounts | src/cpp/parser/parser.cpp:1300-1308 | every step keeps that asleep workers never outnumber pending slots plus owed notifications, and that pending plus active stays within 3J-1 |
| StreamScheduler.RunInv | src/cpp/parser/parser.cpp:1288-1310 | the invariant holds in every state of every run |
| StreamScheduler.WaitingConsumerIsServed | src/cpp/parser/parser.cpp:1300-1308 | while the consumer waits for a batch some worker can move: the wanted batch is never held by a parked worker |
| StreamScheduler.NobodyStranded | src/cpp/parser/parser.cpp:1228-1238 | no worker sleeps once every batch is consumed or stop has been announced |
| StreamScheduler.Progress | src/cpp/parser/parser.cpp:1288-1380 | every reachable state that is not final has an enabled step that is not a spurious wakeup |
| StreamScheduler.MeasureFalls | src/cpp/parser/parser.cpp:1288-1380 | a measure falls on every step that is not a spurious wakeup, and a spurious one raises it by at most one |
| StreamScheduler.EveryRunIsBounded | src/cpp/parser/parser.cpp:1288-1380 | a run is no longer than a constant of the configuration plus twice its spurious wakeups |
| StreamScheduler.NoRunGetsStuck | src/cpp/parser/parser.cpp:1300-1308 | a run that cannot go on without a spurious wakeup has ended with all threads joined |
| StreamScheduler.EveryRunCanFinish | src/cpp/parser/parser.cpp:1228-1238 | from any state a run has reached, finitely many steps without a spurious wakeup end it with all threads joined |
| StreamScheduler.ConcurrentRefinesSerial | src/cpp/parser/parser.cpp:1290-1377 | every interleaving hands the sink what the one-thread loop does, in order and once, and fails exactly when it does |
| StreamScheduler.BacklogIsBounded | src/cpp/parser/parser.cpp:1239-1241 | finished but unconsumed batches never exceed 3J-1 for J jobs |
| Batches.MakeBatches | src/cpp/parser/parser.cpp:1126-1144 | the loop over the table of open batches cuts as promised: one flag set per batch, each flag set chunked on its own, batches in the order of their first members |
| Batches.PlaceAllCuts | src/cpp/parser/parser.cpp:1117-1144 | placing inputs one by one equals plain chunking of each flag set |
| Batches.CutPartitions | src/cpp/parser/parser.cpp:1117-1125 | per flag set nothing is lost, doubled or reordered, in ceil(count / size) batches |
| Batches.ChunksArePieces | src/cpp/parser/parser.cpp:1124-1125 | a plain chunking has full chunks but for the last, and reads back as its input |
| Batches.BatchCount | src/cpp/parser/parser.cpp:1126-1144 | the number of batches is the sum of ceil(count / size) over the flag sets |
| Batches.BatchesDependOnTheSet | src/cpp/parser/parser.cpp:1160-1202 | two listings of the same distinct files with path-determined flags give the same batches of paths |
| Batches.PathLeExactlyWhen | src/cpp/parser/parser.cpp:1175-1182 | the canonical order is by the first character that differs, a prefix first |
| IncludeClosure.Closure | src/cpp/parser/parser.cpp:257-270 | the closure is exactly what include chains from the root reach, root first, without repetition, every file after one that includes it |
| Diagnostics.MergeDiagnostics | src/cpp/parser/parser.cpp:1029-1045 | merging a part keeps, after everything merged before, the groups whose severity and text are new, whole |
| Diagnostics.MergeAll | src/cpp/parser/parser.cpp:1318-1324 | merging the parts in turn leaves the first report of each problem among the groups of all parts, whole and in order |
| Diagnostics.PartsReadAsOne | src/cpp/parser/parser.cpp:1029-1045 | for parts that start with a diagnostic of their own, as the parser builds them, these are the groups of the parts read as one list |
| Diagnostics.GroupsConcat | src/cpp/parser/parser.cpp:1031-1035 | groups distribute over joining two parts exactly when one is empty or the second starts with no note |
| Diagnostics.NotesStayBehindTheirParent | src/cpp/parser/parser.cpp:1029-1045 | the merged list regroups into the kept groups, each problem reported once and none lost |
| Diagnostics.FirstReportExactlyWhen | src/cpp/parser/parser.cpp:1029-1045 | a group is kept exactly when none in front of it starts with the same severity and text |
| Diagnostics.CarryForward | src/clangquill/pipeline.py:498-538 | the carried list followed by the fresh one, as the specification function gives it |
| Diagnostics.CarriedIsExact | src/clangquill/pipeline.py:498-538 | nothing stale stays, nothing of the untouched project is lost, nothing is doubled |
| Diagnostics.CarriedExactlyWhen | src/clangquill/pipeline.py:498-538 | an earlier diagnostic is carried, in order, exactly when its file was not re-parsed, its problem is not reported again, and no earlier one outside the re-parsed files has the same severity and text |
| Diagnostics.ReportedExactlyWhen | src/clangquill/pipeline.py:498-538 | of the fresh records those of warning severity or worse are taken |
| Diagnostics.CarryForwardIsIdempotent | src/clangquill/pipeline.py:498-538 | repeating an identical partial re-parse leaves the list alone, so it cannot grow |
| CarriedDiagnostics.CarriedIsFullExactlyWhen | src/clangquill/pipeline.py:498-538 | a partial re-parse reports the problems a full parse would exactly when every problem another input reports in a file known afresh is reported again, and every problem a re-parsed input had in any other file still is |
| CarriedDiagnostics.WarningGoesMissing | src/clangquill/pipeline.py:498-538 | a concrete edit that drops the warning of an input that was not re-parsed |
| IncrementalParse.FreshInputsKeepTheirDeps | src/clangquill/cache.py:352-380 | under locality an input the scan does not call stale has the dependencies and rows it had |
| IncrementalParse.PartialIsFullExactlyWhen | src/clangquill/pipeline.py:1026-1063 | re-parsing any inputs leaves IR, tracked files and dependency edges as a full parse of the texts it read exactly when every other input would parse as it did, also when those texts changed since the scan |
| IncrementalParse.PartialEqualsFull | src/clangquill/pipeline.py:1026-1063 | for the inputs the scan calls stale, on sources that hold still, the same |
| IncrementalParse.FilesAgree | src/clangquill/cache.py:340-350 | dropping what only stale inputs reached and the fresh parse no longer reaches leaves exactly the file rows of a full parse |
| IncrementalParse.ReferencedIsReached | src/clangquill/cache.py:429-465 | the files some input references are exactly the rows of the IR, so record_partial_parse drops none of them |
| IncrementalParse.StatusOfFullRecord | src/clangquill/cache.py:352-380 | on the record of any full parse the scan finds it current, or exactly the stale inputs; everything only when there are no inputs |
| IncrementalParse.StatusExactlyWhen | src/clangquill/cache.py:352-380 | whatever the tables hold, right or wrong: everything is re-parsed exactly when the fingerprint differs, nothing is tracked, or a changed file is attributed to no input; nothing exactly when nothing changed; and otherwise exactly the owners of what changed |
| IncrementalParse.UnattributedChangeReparses | src/clangquill/cache.py:373-377 | so a change no edge accounts for is followed by a full parse, from any record |
| IncrementalParse.RebuildIsFullExactlyWhen | src/clangquill/pipeline.py:1026-1063 | without locality: one build on the record of any earlier sources gives the record of the current ones exactly when every input it does not re-parse would parse as it did |
| IncrementalParse.RebuildIsFull | src/clangquill/pipeline.py:1026-1063 | under locality it always does |
| IncrementalParse.AnyRunIsAFullParse | src/clangquill/pipeline.py:1026-1063 | after any run of edits and builds under one parse fingerprint the record is that of one full parse |
| IncludeParser.SameReachExactlyWhen | src/cpp/parser/parser.cpp:199-263 | when the files a translation unit read are unchanged it reads the same ones again exactly when no include finds a file that was not there |
| IncludeParser.FollowingIsLocal | src/cpp/parser/parser.cpp:199-263 | a parser that follows includes is local on trees in which every include is found at the first place it is looked up, whatever rows it makes of the texts |
| IncludeParser.CreatedFileIsMissedExactlyWhen | src/clangquill/cache.py:352-380 | on any trees the build after it is wrong exactly when an include of an input it does not re-parse finds a file that was not there |
| BuildCache.BuildCache.ScanInputs | src/clangquill/cache.py:272-316 | the scan returns exactly the rows that are not intact and heals exactly the touched-but-identical ones |
| BuildCache.BuildCache.OwnersByDep | src/clangquill/cache.py:333-338 | the edges regrouped by dependency, none lost |
| BuildCache.BuildCache.DepsOnlyFrom | src/clangquill/cache.py:340-350 | exactly the dependencies all of whose owners are among the given inputs |
| BuildCache.BuildCache.ParseStatus | src/clangquill/cache.py:352-380 | the loop over the changed files answers what the decision on the scan's outcome says, for any tables |
| BuildCache.BuildCache.WriteTuInputs | src/clangquill/cache.py:382-389 | each listed input's edges are replaced, every other input's kept |
| BuildCache.BuildCache.RecordParse | src/clangquill/cache.py:391-427 | the whole new state of the tables after a full parse |
| BuildCache.BuildCache.RecordPartialParse | src/clangquill/cache.py:429-465 | the whole new state after a partial one: only referenced files keep a row |
| BuildCache.HitsAfterRecording | src/clangquill/cache.py:583-624 | a recorded page is served back under its own key and no other, a pruned one is forgotten, all others answer as before |
| BuildCache.BuildCache.RecordPages | src/clangquill/cache.py:596-624 | pages that left the render are pruned, rendered ones replaced |
| Pipeline.RenderedFiles | src/clangquill/pipeline.py:760-832 | replaying pages whose key matches gives the text of a full un-memoised render, and leaves the page cache holding exactly this render |
| Pipeline.OutputsIntact | src/clangquill/pipeline.py:1271-1293 | true exactly when there are records and every one is intact; only then are stats healed |
| Pipeline.ApplyOutputs | src/clangquill/pipeline.py:1296-1338 | every page holds its text, pages that left the render are gone, nothing else is touched, and intact pages keep their stat |
| Pipeline.SnapshotOfPartial | src/clangquill/cache.py:429-465 | what record_partial_parse is asked to write are the edges and tracked files the partial re-parse leaves |
| Pipeline.Workspace.ReparseAll | src/clangquill/pipeline.py:1026-1030 | a full parse leaves the full record of the sources on disk, whatever was there |
| Pipeline.Workspace.ReparseStale | src/clangquill/pipeline.py:1031-1063 | a partial one leaves the partial record, from any record and for any stale inputs |
| Pipeline.Workspace.BringParseUpToDate | src/clangquill/pipeline.py:1026-1063 | from any record, right or wrong, the parse half leaves what one rebuild of the record leaves, and parses exactly when the scan does not find it current; when a changed file has no owner it leaves the full record |
| Pipeline.Workspace.Render | src/clangquill/pipeline.py:1064-1088 | the pages on disk are those of a full un-memoised render, vanished pages are gone, no other file is touched |
| Pipeline.Workspace.IncrementalBuild | src/clangquill/pipeline.py:974-1090 | from a consistent state, whichever way the build goes, the record and the pages on disk are those of a full parse and a full un-memoised render of the current sources, and the state is consistent again; from any other state it does what the record and the recorded render lead it to |
| BuildRuns.RunBuilds | src/clangquill/pipeline.py:974-1090 | from an empty cache, over any history of writes, builds, configuration changes, lost IR files and damage to the output directory, the last build leaves the record of a full parse and the pages of a full render; trust in stats is derived from the timestamps, and asks something of later writes only after a build that parses nothing |
| BuildRuns.RepeatedBuildIsNoop | src/clangquill/pipeline.py:992-1001 | what a build has left makes the next one of the same sources and configuration parse nothing and take the shortcut |
| BuildRuns.CrashThenReturnIsKept | src/clangquill/pipeline.py:1028-1063 | when sources and configuration return to the recorded ones, whatever IR the crash left is called current and kept, right only if it was the right one |
| BuildRuns.CrashIsHealedExactlyWhen | src/clangquill/pipeline.py:1028-1063 | whatever IR the crash left, the next build leaves the whole record of a full parse exactly when the inputs it does not re-parse have the rows they had and there are no others, the files they read and no re-parsed input reads have the rows they had, and every file row is of a file reached then or now |
| BuildRuns.BuildAfterCrash | src/clangquill/pipeline.py:1028-1063 | the same condition for the build method itself |
| BuildRuns.CrashIsRenderedOverExactlyWhen | src/clangquill/pipeline.py:1071-1076 | the build after a crash before record_render publishes its own pages exactly when it parses, runs under another configuration than the recorded render, finds an indexed page damaged, or renders the indexed pages anyway |
| BuildRuns.DyingRender | src/clangquill/pipeline.py:1065-1071 | up to record_outputs the pages of the new render are on disk and indexed, and recorded pages that left it are gone |
| BuildRuns.BuildAfterDyingRender | src/clangquill/pipeline.py:1071-1076 | for a consistent workspace, a dying render and the next build: that build publishes its own pages exactly when it parses, runs under another configuration than the recorded one, or the dying render's pages are its own |
| BuildRuns.CrashedRenderIsServed | src/clangquill/pipeline.py:1071-1076 | built under one configuration, rendered under a second up to record_outputs, built under the first again: the pages of the second stay |
| Witnesses.EveryStatusIsReached | src/clangquill/cache.py:352-380 | a small project with a header: its full parse has file rows, and an edit of the header makes its one input stale |
| Witnesses.CrashThenReturnIsMissed | src/clangquill/pipeline.py:1028-1063 | a concrete crash and return of the sources after which a wrong IR is called current |
| Witnesses.OtherConfigurationIsKept | src/clangquill/pipeline.py:1028-1063 | a concrete crash under another configuration, and a return of the first, after which the other one's IR is called current |
| Witnesses.CrashLeavesARow | src/clangquill/pipeline.py:1028-1063 | a concrete crash after which the row of a file nothing reaches stays in the IR |
| Witnesses.CreatedFileIsMissed | src/clangquill/cache.py:272-316 | a concrete created header that the scan does not notice |
| Witnesses.SharedEditIsMissed | src/clangquill/pipeline.py:992-1063 | a concrete edit of a shared header between scan and parse after which a wrong record is called current |
| Witnesses.EditsInOneGranule | src/clangquill/pipeline.py:974-1090 | a concrete run of two builds between and after two writes that leave the same stat: the second text is found |
| Witnesses.CrashedPageIsServed | src/clangquill/pipeline.py:1071-1076 | a concrete pair of configurations for which the page of the wrong one is served |
| MtimeGuard.GuardedStatIsSound | src/clangquill/cache.py:523-548 | a stored mtime that still matches means the content is the one that was hashed, for any writes during and after the parse |
| MtimeGuard.SnapshotIsSoundExactlyWhen | src/clangquill/cache.py:391-465 | the rows a full or partial parse stores may be trusted from then on exactly when no digest is filed under a stat older than the guard, of the right size, that shows another text |
| MtimeGuard.RecordedRowsAreTrusted | src/clangquill/cache.py:391-465 | so they may, whatever is written during the parse and after it, when no digest is older than the parse |
| MtimeGuard.ServedDigestCanMissAnEdit | src/cpp/parser/parser.cpp:101-145 | two parses in one process and an edit in one timestamp granule: the remembered digest is filed under the new stat and trusted |
| MtimeGuard.RememberedIsRightExactlyWhen | src/cpp/parser/parser.cpp:101-145 | a remembered digest serves every later parse right exactly when every later change of the text shows in the stat |
| MtimeGuard.UnreadRowCanMissAnEdit | src/clangquill/pipeline.py:992-1025 | a concrete edit between the scan and the start of the parse that is trusted away |
| MtimeGuard.HealedRowCanMissAnEdit | src/clangquill/cache.py:284-316 | healed rows have no such guard: a concrete table that may be trusted, and after the scan no longer |
| MtimeGuard.HealedTableIsSoundExactlyWhen | src/clangquill/cache.py:284-316 | a scan leaves a table that may be trusted exactly when every later change of the text of a file whose row it heals shows in mtime or size |
| MtimeGuard.MatchedIsToldApart | src/clangquill/cache.py:295-298 | of a row whose stat still matches, as much is true already |
| TemplateHead.ReadTemplateHead | src/cpp/parser/cursor_utils.cpp:377-467 | the token loop returns the parameters between the opening list and its matching closer with their defaults, or nothing; for tokens without white space the returned text spells every parameter token for token, and each default its tokens |
| TemplateHead.UnitsExactlyWhen | src/cpp/parser/cursor_utils.cpp:399-466 | the units read are exactly a balanced list whose tokens, with adjacent closers fused, lie before the matching closer |
| TemplateHead.BalancedExactlyWhen | src/cpp/parser/cursor_utils.cpp:291-321 | balanced means: the list stays open over every prefix and everything opened is closed at the end |
| TemplateHead.NeverPartial | src/cpp/parser/cursor_utils.cpp:399-466 | for any tokens, a head is found exactly when the list closes, and its parameters joined by commas are the tokens in between |
| TemplateHead.ParametersCut | src/cpp/parser/cursor_utils.cpp:431-438 | cutting at commas loses no token |
| TemplateHead.ParametersHoldNoComma | src/cpp/parser/cursor_utils.cpp:431-438 | no parameter holds a separator of its own list |
| TemplateHead.DefaultExactlyWhen | src/cpp/parser/cursor_utils.cpp:431-438 | a default is the text after the first ungrouped depth-1 equals sign, and there is none exactly when there is no such sign |
| TemplateHead.ParameterPrints | src/cpp/parser/cursor_utils.cpp:377-467 | a printed well-formed parameter is balanced, holds no separator and has exactly its default |
| TemplateHead.PrintThenParse | src/cpp/parser/cursor_utils.cpp:377-467 | reading a printed parameter list gives back its parameters and defaults, for every way of fusing closers and whatever surrounds the head |
| TemplateHead.HeadSpells | src/cpp/parser/cursor_utils.cpp:267-274 | the words of the head, cut at its separating commas, are the tokens of the parameters in order, none missing and none run together; the same for each default |
| TokenText.TextSpellsParameters | src/cpp/parser/cursor_utils.cpp:460-466 | the text of a parameter list, cut at its separators, gives every parameter back |
| TokenText.JoinedWords | src/cpp/parser/cursor_utils.cpp:267-274 | the words of a parameter's text are its tokens |
| HashConstants.FirstPrimes | src/cpp/hash/sha256.cpp:8-19 | the table the constants are measured against holds exactly the primes up to 311 |
| HashConstants.PrimesAscend | src/cpp/hash/sha256.cpp:8-19 | in ascending order, so its i-th entry is the i-th prime |
| HashConstants.ConstantsAreCubeRoots | src/cpp/hash/sha256.cpp:8-19 | section 4.2.2 of FIPS 180-4: constant i is the first 32 bits of the fractional part of the cube root of the i-th prime |
| HashConstants.InitialWordsAreSquareRoots | src/cpp/hash/sha256.cpp:29-40 | section 5.3.3: the initial words are the same of the square roots of the first eight primes |
| HashConstants.FractionsAreUnique | src/cpp/hash/sha256.cpp:8-40 | a number has one such word each, so the tables can hold nothing else |
| HashConstants.FunctionBits | src/cpp/hash/sha256.cpp:21-74 | section 4.1.2: which bit of the argument or arguments goes into each bit of the six functions |
| HashConstants.BitsDecide | src/cpp/hash/sha256.cpp:21-23 | words with the same bits are the same, so that says what the functions are |
| HashConstants.RoundUndone | src/cpp/hash/sha256.cpp:59-74 | a round can be undone: its result, constant and word tell the variables it started from |
| HashConstants.ScheduleUndone | src/cpp/hash/sha256.cpp:50-54 | and so can a step of the message schedule |
| HashConstants.BlockWordValue | src/cpp/hash/sha256.cpp:44-49 | the words of a block are its bytes as big-endian numbers |
| Fips180.PaddingIsLeast | src/cpp/hash/sha256.cpp:105-116 | the zero bytes are the least solution of the padding equation of section 5.1.1 |
| Fips180.BigEndianValue | src/cpp/hash/sha256.cpp:113-117 | the length bytes denote the length |
| Fips180.BigEndianAt | src/cpp/hash/sha256.cpp:113-129 | byte i is the number shifted right by the bytes behind it |
| Sha256.Sha256.Reset | src/cpp/hash/sha256.cpp:29-40 | the object stands for the empty message |
| Sha256.Sha256.Absorb | src/cpp/hash/sha256.cpp:86-101 | one turn of the copy loop: the bytes are buffered, a full block is digested |
| Sha256.Sha256.Update | src/cpp/hash/sha256.cpp:86-101 | however the message is split, the object stands for everything fed so far |
| Sha256.Sha256.PadWithZeros | src/cpp/hash/sha256.cpp:105-112 | the padding loop terminates and feeds exactly the zero bytes that leave eight in the block |
| Sha256.Sha256.AppendPadding | src/cpp/hash/sha256.cpp:105-118 | the digested bytes are the message padded as section 5.1.1 says |
| Sha256.Sha256.ExtendSchedule | src/cpp/hash/sha256.cpp:50-54 | the loop in its own order of additions computes the message schedule of section 6.2.2 |
| Sha256.Sha256.RunRounds | src/cpp/hash/sha256.cpp:56-74 | 64 rounds on the working variables are those of section 6.2.2 |
| Sha256.Sha256.Transform | src/cpp/hash/sha256.cpp:42-84 | one application of the compression function, in place |
| Sha256.Sha256.ToHex | src/cpp/hash/sha256.cpp:116-125 | the state printed in lower-case hexadecimal, most significant byte first |
| Sha256.Sha256.HexDigest | src/cpp/hash/sha256.cpp:105-129 | below 2^61 bytes the digest is the standard's hash of everything fed, and the object is reset |
| Sha256.HexOf | src/cpp/hash/sha256.cpp:131-135 | the one-shot hash |
| ContentHash.UpdateLength | src/cpp/hash/content_hash.cpp:22-29 | the length is fed as eight big-endian bytes |
| ContentHash.FeedParameters | src/cpp/hash/content_hash.cpp:105-110 | the parameters' fields are fed in order, each framed |
| ContentHash.ContentHash | src/cpp/hash/content_hash.cpp:95-113 | the digest is the standard's hash of the framed stream |
| ContentHash.FramesReadBack | src/cpp/hash/content_hash.cpp:16-29 | a run of framed values and what follows it can be told apart in one way only |
| ContentHash.DecimalReadsBack | src/cpp/hash/content_hash.cpp:52-79 | two enumerators printed alike are equal |
| ContentHash.StreamDeterminesContent | src/cpp/hash/content_hash.cpp:16-113 | two contents have the same stream exactly when they are equal, whatever bytes their fields hold |
| Words.NormalizeWs | src/cpp/comment/doxygen_raw.cpp:17-31 | the loop yields the words of the text with one space between them |
| Words.WordsOfJoined | src/cpp/comment/doxygen_raw.cpp:17-31 | normalized text has the same words |
| Words.NSplitFirst | src/cpp/comment/doxygen_raw.cpp:35-46 | splitting off the first token loses no word |
| CopyCommands.CopyTargetOf | src/cpp/comment/doxygen_raw.cpp:483-503 | the loop yields the first word outside template arguments and in front of the parameter list, without a leading scope |
| CopyCommands.TargetIsPlain | src/cpp/comment/doxygen_raw.cpp:483-503 | whatever stands behind a copy command, the target is one word without template arguments or a parameter list |
| CopyCommands.PlainNameIsKept | src/cpp/comment/doxygen_raw.cpp:483-503 | a plain name is its own target but for a leading scope, whatever parameter list or qualifiers follow it |
| CopyCommands.ArgumentsAreDropped | src/cpp/comment/doxygen_raw.cpp:483-503 | template arguments are dropped whole, however they nest and whatever parentheses stand in them |
| CommentMarkers.StripMarkers | src/cpp/comment/doxygen_raw.cpp:602-686 | the loop cuts the raw comment into lines and strips each as its marker, the style of the comment and the end of the line say |
| CommentMarkers.ParseComment | src/cpp/comment/doxygen_raw.cpp:688-866 | the comment of a raw text is that of its stripped lines |
| CommentMarkers.MarksAreMarks | src/cpp/comment/doxygen_raw.cpp:634-659 | behind any indentation, every one of the ten opening markers with its blank is taken off a line whole, and nothing more |
| CommentMarkers.LineCommentRoundTrip | src/cpp/comment/doxygen_raw.cpp:621-666 | lines written as line comments, each behind any marker of one and any indentation, come back exactly when each ends plainly |
| CommentMarkers.BlockCommentRoundTrip | src/cpp/comment/doxygen_raw.cpp:616-666 | text behind any opening marker of a block comment, and lines behind stars, come back, whatever bullets or emphasis they start with, under the same condition |
| CommentMarkers.EndsPlainlyExactlyWhen | src/cpp/comment/doxygen_raw.cpp:622-630 | a line ends plainly exactly when it ends in no blank and not in the end mark of a block comment |
| CommentMarkers.OneLineComment | src/cpp/comment/doxygen_raw.cpp:621-666 | a block comment on one line holds the text between its marks |
| CommentMarkers.GluedLine | src/cpp/comment/doxygen_raw.cpp:634-662 | a text right behind its marker comes back whole: a marker eats no character but a blank |
| CommentMarkers.UnmarkedLineExactlyWhen | src/cpp/comment/doxygen_raw.cpp:604-662 | a line is kept as it is, indentation, bullets and emphasis included, exactly when it ends plainly and carries no marker |
| CommentMarkers.BlockStyleExactlyWhen | src/cpp/comment/doxygen_raw.cpp:669-672 | a comment is of block style exactly when its first text opens a block comment |
| RawScan.ParseRaw | src/cpp/comment/doxygen_raw.cpp:688-858 | the line loop with its rescans leaves the model the state machine defines |
| CommentSections.ScanHolds | src/cpp/comment/doxygen_raw.cpp:719-850 | after any lines the model is what routing the closed sections of the lines in order leaves, and the open section is the one in the buffers |
| CommentSections.ParamsOfSections | src/cpp/comment/doxygen_raw.cpp:508-578 | every parameter section becomes one parameter, in order, with its direction, name and description |
| CommentSections.CommandExactlyWhen | src/cpp/comment/doxygen_raw.cpp:185-205 | an `@` or a backslash and a word start a command, however indented, exactly when the word is not inline markup |
| CommentSections.OtherNames | src/cpp/comment/doxygen_raw.cpp:508-578 | a command that is another name for one is routed as that one |
| CommentSections.GroupCommandTakesItsLine | src/cpp/comment/doxygen_raw.cpp:389-400 | a grouping command takes its line and leaves nothing open |
| RawScan.ApplyLeadInto | src/cpp/comment/doxygen_raw.cpp:585-600 | without a brief section the first entry that reads as a sentence is the brief and the others are the detail in order; otherwise all of them are |
| RawScan.RouteKeepsWords | src/cpp/comment/doxygen_raw.cpp:508-578 | a routed argument adds exactly its words to the model, a copy command those of its target |
| RawScan.FlushKeepsWords | src/cpp/comment/doxygen_raw.cpp:719-747 | closing a section moves its words, and loses none |
| RawScan.BodyKeepsWords | src/cpp/comment/doxygen_raw.cpp:122-162 | what is printed of a verbatim block holds every word of it |
| RawScan.ScanKeepsWords | src/cpp/comment/doxygen_raw.cpp:759-850 | after any lines the scanner holds exactly the words it should, and knows which block and which copy command is open |
| RawScan.ScanKeepsShape | src/cpp/comment/doxygen_raw.cpp:759-850 | directions are canonical, names start with no space, and the custom keys are exactly the unclaimed commands of the lines |
| ParsedComment.NoWordIsLost | src/cpp/comment/doxygen_raw.cpp:688-858 | every word apart from command words, attributes, arguments of copy commands and lines closing a block occurs in the fields exactly as often as in the lines, and of each copy command exactly its target does |
| ParsedComment.BlankLineEnds | src/cpp/comment/doxygen_raw.cpp:832-842 | a blank line leaves nothing open exactly when the text before it does not start with a bare marker |
| ParsedComment.BareMarkerRunsOn | src/cpp/comment/doxygen_raw.cpp:832-842 | a concrete comment in which such text does run past a blank line |
| ParsedComment.CommentIsItsSections | src/cpp/comment/doxygen_raw.cpp:688-858 | every field but brief and detail is what the sections of the lines make of it, and those two start with it; the free text has a say in the brief exactly when no section is one |
| LeadOrder.LeadGrows | src/cpp/comment/doxygen_raw.cpp:705-757 | what is in the free text stays in front of whatever later lines add |
| LeadOrder.FirstSentenceIsBrief | src/cpp/comment/doxygen_raw.cpp:585-600 | behind lists and blocks only, the first paragraph that reads as a sentence is the brief, whatever lines follow it, unless some section is one |
| LeadOrder.FirstParagraphIsBrief | src/cpp/comment/doxygen_raw.cpp:585-600 | in particular the paragraph a comment starts with |
| LeadOrder.BlockIsInOrderExactlyWhen | src/cpp/comment/doxygen_raw.cpp:705-757 | a closed block stands behind everything above it exactly when no list items were pending, as read off the lines |
| CommentWitnesses.BlockOvertakesItsList | src/cpp/comment/doxygen_raw.cpp:705-757 | a concrete comment whose code block comes before the list above it |
| ParsedComment.ParsedRoundTrip | src/cpp/comment/doxygen_raw.cpp:508-578 | a parsed comment survives its rows exactly when its lines hold no detail command and no parameter section without a direction whose first word starts with a bracketed one |
| ParsedComment.RowNamesRouteHome | src/cpp/comment/doxygen_raw.cpp:508-578 | a command named like a row of the field table is stored under that row and no other: router, table and encoder agree |
| CommentWitnesses.CopyTailIsDropped | src/cpp/comment/doxygen_raw.cpp:540-549 | of a concrete declaration behind `\copydoc` only the name is stored |
| CommentWitnesses.DetailDoesNotSurvive | src/cpp/comment/doxygen_raw.cpp:508-578 | a concrete comment with a `\detail` command that does not come back from its rows |
| CommentWitnesses.BracketedNameDoesNotSurvive | src/cpp/comment/fields.cpp:123-140 | a concrete parameter without a direction that comes back with one |
| CommentWitnesses.BacktickIsALanguage | src/cpp/comment/doxygen_raw.cpp:56-106 | a concrete `\code` line whose language is a backtick |
| CommentWitnesses.BacktickLanguageDoesNotSurvive | src/cpp/comment/doxygen_raw.cpp:122-162 | the block printed with that language is not read back |
| CommentWitnesses.CarriageReturnDoesNotSurvive | src/cpp/comment/doxygen_raw.cpp:122-162 | the block printed for a concrete line with a carriage return is not read back |
| Fence.FencedBlock | src/cpp/comment/doxygen_raw.cpp:122-162 | the loops that trim, measure and print yield the block the specification function gives |
| Fence.FenceRoundTrip | src/cpp/comment/doxygen_raw.cpp:122-162 | the fenced-code rule reads back the info string and the dedented, trimmed lines, for any body, exactly when the info string has no backtick and nothing holds a carriage return |
| Fence.UnsaidLanguage | src/cpp/comment/doxygen_raw.cpp:147-151 | a block of code without a language is read back as C++, a verbatim block as no language |
| Fence.BodyIsTrimmed | src/cpp/comment/doxygen_raw.cpp:124-136 | the body is what lies between the first and the last line that is not blank, without the indentation they share, and some line has none left |
| Fence.TicksAreLeast | src/cpp/comment/doxygen_raw.cpp:138-145 | the fence is the shortest of at least three backticks that no line holds |
| Fence.FenceAgain | src/cpp/comment/doxygen_raw.cpp:122-162 | fencing the body once more prints the same block |
| CommentRows.ToCommentFields | src/cpp/comment/fields.cpp:151-180 | the rows of the field table in its order, then the custom ones |
| CommentRows.FromCommentFields | src/cpp/comment/fields.cpp:182-196 | the table-driven decoder equals the row-by-row specification |
| CommentRows.ModelFromFields | src/clangquill/comments.py:130-157 | the Python decoder builds the same model on every row list |
| CommentRows.ParamRoundTrip | src/cpp/comment/fields.cpp:123-140 | a parameter survives its one argument slot exactly when its direction is canonical and its name cannot be taken for one |
| CommentRows.SplitExactlyWhen | src/cpp/comment/fields.cpp:128-140 | the decoder sees a direction exactly in front of a bracketed in, out or in,out |
| CommentRows.RowRoundTrip | src/cpp/comment/fields.cpp:123-196 | decoding the rows of a comment gives it back exactly when it is row-safe |
| Stems.SlugKeepsRuns | src/clangquill/generator.py:536-539 | a slug spells the letters and digits of the name run by run, with one underscore between runs and none around them |
| Stems.StemIsShort | src/clangquill/generator.py:580-594 | no stem exceeds 96 characters |
| Stems.StemExactlyWhen | src/clangquill/generator.py:580-594 | a name keeps its slug exactly when that fits; an overlong one keeps the start of it and ends in a digest of the whole name |
| Stems.PadUntilFree | src/clangquill/generator.py:2216-2217 | the fallback loop terminates with a free stem, and leaves a free one alone |
| Stems.Generator.UniqueStem | src/clangquill/generator.py:2189-2219 | the stem is free, recorded, and the bare or tagged one unless that is taken |
| Stems.Generator.PlanStems | src/clangquill/generator.py:1604-1631 | stems are distinct ignoring case and avoid the reserved ones; they are the assigned ones exactly when those already do |
| Stems.ClashlessAssigns | src/clangquill/generator.py:2189-2219 | distinct names without digest, tag or reserved clashes meet that condition |
| Stems.StemsFollowTheSet | src/clangquill/generator.py:1617-1631 | then a page's stem depends on the set of names only, not on the order of the walk |
| Hierarchy.Generator.EmitLumpedPage | src/clangquill/generator.py:1961-1995 | one page for all members, ascending by spelling and signature, or nothing |
| Hierarchy.Generator.EmitFunctionPages | src/clangquill/generator.py:1912-1959 | every function lands on one page, with all overloads of its name or with all operators, ascending by spelling and signature |
| Hierarchy.Generator.EmitRecords | src/clangquill/generator.py:1852-1864 | one page per record, listed by its spelling and specialization arguments, and the pages ascend by spelling |
| Hierarchy.Generator.EmitHub | src/clangquill/generator.py:1880-1910 | a namespace that is documented or has an entry below it gets one hub under its qualified name, listed by its spelling, whose toctree lists its scope; any other gets nothing |
| Hierarchy.Generator.EmitScope | src/clangquill/generator.py:1808-1878 | the new pages are about exactly what is due, each linked once by an entry or by a later hub; the entries list the scope, hubs by spelling and then its own pages, and lead to exactly its members that matter |
| Hierarchy.BucketsAreDue | src/clangquill/generator.py:1827-1843 | every member of a scope falls into exactly one bucket |
| Hierarchy.BucketsAreOwn | src/clangquill/generator.py:1827-1843 | and those a toctree must lead to are the namespaces that matter and all the others |
| Hierarchy.RecordPage | src/clangquill/generator.py:1852-1864 | a record of a scope has a listed page to itself, under its qualified name with its specialization arguments |
| Hierarchy.FunctionsPage | src/clangquill/generator.py:1930-1950 | a function that is no operator shares one with exactly the overloads of its scope, under the qualified name of the first by signature |
| Hierarchy.LumpedPages | src/clangquill/generator.py:1865-1877 | the operators, types, constants and remaining symbols of a scope share one each, named within the scope |
| Hierarchy.SortedAscends | src/clangquill/generator.py:1828-1835 | sorting by a total order ascends |
| Hierarchy.SortOrdersAreTotal | src/clangquill/generator.py:1828-1835 | and the orders by spelling, by signature and by both are total |
| Hierarchy.RecordPagesAscend | src/clangquill/generator.py:1852-1864 | so the record pages ascend by spelling |
| Toctree.PlanNamespacePages | src/clangquill/generator.py:1790-1806 | the pages are about every symbol that is due, their links form a forest, and the forest mirrors the namespaces: the root index lists the global scope and every hub its own |
| Toctree.OnePageEach | src/clangquill/generator.py:1880-1910 | every symbol reached through namespaces has one page per place in the tree, and of the namespaces all but empty, undocumented ones have a hub |
| Toctree.ChainIsNamespaces | src/clangquill/generator.py:1790-1806 | the chain of links from the root index to a symbol's page is the chain of the hubs of its enclosing namespaces |
| Toctree.NamespacesAreAChain | src/clangquill/generator.py:1790-1806 | and every symbol that matters, along any path of namespaces, is reached by such a chain |
| Toctree.PlanPages | src/clangquill/generator.py:1604-1643 | and the pages get distinct file names |
| Toctree.EveryPageIsReached | src/clangquill/generator.py:1645-1666 | every page is reached from the root index |
| Toctree.PagesAreReachedOnce | src/clangquill/generator.py:1645-1666 | along one chain of links only |
| Toctree.EveryPageIsListedOnce | src/clangquill/generator.py:1645-1666 | the root index and the hubs together list every page once and nothing else |

## Left out

- libclang: cursors, tokenising, visiting and include edges are inputs; a parse result is a function of the files it reached.
- SQL, SQLite locking and the write-ahead log: tables are maps and sets, a method is one committed transaction. Of `SqliteStore::write_tus` only the effect the cache relies on is taken (`IncrementalParse.WriteTus`).
- The C++ memory model beyond interleaving: one mutex, two condition variables, and a loop test that may read a stale `stop`.
- The branch of `parse_files` without a sink, which merges the slots after the join, and the per-input success flags.
- StreamScheduler.Progress: says nothing about fairness of the thread scheduler; with `EveryRunIsBounded` none is needed for termination as long as spurious wakeups are finitely many.
- Jinja rendering, Sphinx, the command line and configuration: a render is a function of the page key.
- The operating-system file lock, the page manifest and the diagnostics log.
- Pipeline.Workspace.IncrementalBuild: covers a fixed output directory; a changed one, and the diagnostics summary it stores, are not modelled. One disk serves the scan, the parse and the record: with writes during a build the same does not hold (`Witnesses.SharedEditIsMissed`); they, and digests remembered across builds, are the subject of `MtimeGuard` and of `IncrementalParse.PartialIsFullExactlyWhen`, one build at a time.
- IncrementalParse.RebuildIsFull: a stale input that disappears between listing the inputs and parsing them makes the partial re-parse fail before it writes; that race is not modelled.
- IncludeParser.FollowingIsLocal: macros that leak between the members of one umbrella batch are outside locality and not modelled.
- Sha256.Sha256.HexDigest: below 2^61 bytes; longer messages overflow the standard's 64-bit length field.
- RawScan.ParseRaw: keeps the scanner's buffers as one value, with flushing a section, closing a list and closing a block as functions on it; inline markup is the identity. Words are counted rather than ordered; `LeadOrder` says when the free text follows the order of the lines.
- CommentRows.RowRoundTrip: the symbol's identifier and the ordinals are the row list's position.
- `split_xref_target`, `is_cpp_name`, `render_inline_markup`: inline markup is the identity here, so nothing needs them.
- TemplateHead.ReadTemplateHead: what its text tells is stated for tokens without white space in them or a comma at their end; a string literal that has either is printed as it stands, and its words are not told apart.
- `param_default`, `variable_template`, `without_injected_template_id` and `macro_signature` of cursor_utils.cpp: smaller uses of the same token loop as `template_head`.
- Stems.Generator.PlanStems: case folding is that of ASCII letters, the only ones a stem holds; reserved stems come already folded.
- Hierarchy.Generator.EmitScope: works on the tree of visible symbols, so visibility and cycles in a malformed IR are not modelled; pages are known by their position, and group pages are left out.
- The file, class and symbol groupings, and documentation groups: flat lists of pages, covered by `Stems` alone.
