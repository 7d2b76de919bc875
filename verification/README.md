# Verified model of wowdoc

wowdoc indexes the source of World of Warcraft's user interface for offline search and
checks AddOns against what it indexed. This project models its content-addressed
indexing pipeline and its AddOn validator in Dafny, and proves what they promise over
every input, every run and every interleaving.

`dafny verify dfyconfig.toml` checks the whole project.

## The parts

**Shared facts and branches** (`ContentSpec`, `IndexEntry`, `ContentStore`, `ContentFacts`,
`ContentMachine`, `ContentSteps`, `ContentTheorems`, `VisibleTheorems`, `FullTextTheorems`,
`Text`). Parsed facts are kept once per content hash and language; a product branch keeps, per
snapshot, which content each path has and in which role, and its own full text. `ContentSpec`
gives the transactions as functions on tables, `ContentStore` the imperative store that
computes them, and `ContentMachine` a state machine in which builds of any products look
entries up, take them over or parse them, merge, publish and stop, interleaved in any way. The
central result, `SnapshotsShowFreshParses`, is a refinement: a ready snapshot shows for each of
its files exactly what parsing that file again and attaching its role would show.
`VisibleTheorems` says fact by fact what that is.

**Pack store** (`PackFormat`, `PackRecords`, `PackSpec`, `PackStore`, `PackMachine`,
`PackTheorems`). Records in append-only packs, an index by kind and hash, a cache per process.
`PackMachine` has any number of processes and stores, takes a publish step by step (filter,
compact, rename, insert, commit), and lets it stop, or a process crash, after any of them.

**Load closure** (`ClosureSpec`, `ClosureBuilder`, `ClosureReading`, `ClosureTrace`,
`ClosureTheorems`, `ClosureCycles`, `ClosureReports`). The expansion of an AddOn's TOC through
its XML files, as the recursive builder over mutable fields and as functions; an independent
worklist machine (`Trace`) and reachability over the include graph say what it must compute,
and `ClosureReading` which lines and elements the references are.

**Build pipeline and init scheduler** (`BuildPipeline`, `BuildTheorems`, `InitScheduler`,
`InitTheorems`, `Conservation`, `Ordering`). Goroutines, unbuffered channels, the error channel
and the mutex as steps of state machines; what a build hands over is what `ContentMachine`
merges.

**Generated API documentation** (`GeneratedApi`, `GeneratedPrint`, `GeneratedText`,
`GeneratedTheorems`, `GeneratedIndex`, `GeneratedBraces`). The line parser, from the patterns
on characters up to the machine over lines, and a printer of documentation: systems with
namespaces, members nested in blocks to any depth, sections with a table or `nil`, parameters
with further attributes, and any other attributes, field tables, string tables, remarks and
blank lines. The documents of `testdata/sources/valid-retail` have this form.

**Validation** (`CompatSpec`, `CompatLookup`, `CompatVerdicts`, `Validate`, `VerdictTheorems`,
`Matrix`, `MatrixFacts`, `MatrixDiagnostics`, `Like`). Compatibility lookups with their cache
and in-place sort, the verdict and the coverage counts, the merge of targets, and LIKE
escaping. `VerdictIsOfFreshParses` joins this part to the first one: whether an AddOn is valid
is decided by what freshly parsing the files of the snapshot would give.

## What is assumed

- The hash tells the stored data apart (`Separates`), gunzip inverts gzip, and the digest has
  32 bytes (`Lawful`). Nothing is assumed of data that is not stored.
- The parsers are functions of the language and the bytes, and they end; `ParserFits` says that
  each puts facts of the right kind into each of its tables. A Git object id
  names its bytes. An object that is read back by hash has that hash, which the reader checks.
- Entry paths within one build are distinct, staging names are fresh, and there is one parser
  and one index schema.
- No object store error occurs inside `parseEntry` (`internal/indexer/indexer.go:283-286`
  turns it into a diagnostic only), and the build context is not cancelled: on cancellation
  the workers return without an error and the code goes on to publish
  (`internal/indexer/indexer.go:245-251`, `internal/indexer/indexer.go:339-347`).
- A store is not used after `Abort` or after a failed `Publish`; `PublishAfterFailureLosesRecords`
  and `PutAfterAbortIsLost` show why.
- In the closure no two readable files share a lower-cased path (`CaseDistinct`), and the disk
  does not change while it is read.
- Scheduler outcomes are fixed per job and ref, snapshot ids and source/product pairs are
  unique. Matrix target ids are unique (`internal/app/validation.go:96-99`).

## What turned out false of the code

Each of these has a lemma with a concrete input; the lemma named after it says when the
property does hold.

- With two processes a published object can be missed, because a cache that was loaded before
  is never read again: `SecondProcessMisses`, and `PublishedDataComesBack` for the condition.
- A publish after a failed one, or after an abort, reports success and keeps nothing:
  `PublishAfterFailureLosesRecords`, `AbortLosesRecords`, and `PublishKeepsItsWord` for the condition.
- An XML element named `source` is indexed under its file's text: `SourceElementLosesItsText`,
  and `SourceTextComesBack` for the condition.
- Coverage counts do not balance without a snapshot, nor when a usage names the declared
  interface: `UncheckedIsCounted`, `NamedInterfaceIsCountedTwice`, and `CoverageIsBalanced` for the
  condition. The two callers in `internal/app/validation.go` always pass a snapshot, and the
  analysis emits no such usage, so their counts do balance: `CoverageOfAnalysis`.
- A Lua file in which a closed table, a blank line and an event follow each other is not
  survived by the documentation parser (a slice out of range at `internal/indexer/parse.go:271`):
  `ClosedTableBeforeEvent`, and `ParseSurvives` with `EndsBeforeName` for the condition.
- A build that fails can leave its producer goroutine blocked: `ProducerCanBeLeftBehind`, and
  `ProducerLeftBehind` for the condition.
- A section of a documentation table whose brace stands on the next line is lost from the
  signature: `LostSignature`, and `BraceDecides` for the condition.

## Model

| member | source | states |
|---|---|---|
| ContentStore.SharedContent.LoadStrings | internal/store/branch.go:391-406 | the dictionary has exactly the stored strings, each with its id |
| ContentStore.SharedContent.StringId | internal/store/branch.go:407-420 | a string gets the id it has, or a new one; all other ids stay; the dictionary stays exact |
| ContentStore.SharedContent.EncodeRow | internal/store/branch.go:445-460 | the string columns of a row refer to the values of the fact, and missing strings are added in order |
| ContentStore.SharedContent.InsertRows | internal/store/branch.go:443-463 | inserts exactly the facts whose path gave its content a new row |
| ContentStore.SharedContent.MergeFileRows | internal/store/branch.go:422-442 | the loop over the files computes rows, paths, Git ids and fact paths of the merge |
| ContentStore.SharedContent.MergeBatch | internal/store/branch.go:385-538 | the merge transaction computes the merge of the whole batch on the tables, and returns the content of each path |
| ContentStore.BranchStore.PlaceSnapshot | internal/store/branch.go:347-362 | replaces the files of one snapshot, or names the path without content or placed twice |
| ContentStore.BranchStore.AddContent | internal/store/branch.go:552-586 | adds the documents of one content row by row, or fails at the first missing object or document already indexed |
| ContentStore.BranchStore.AddDocuments | internal/store/branch.go:540-588 | adds the search documents of the added contents in whatever order the contents are taken; it fails if and only if one of them misses an object or is already indexed, with an error that applies |
| ContentStore.BranchStore.PublishSnapshot | internal/store/branch.go:332-383 | both transactions of a publish; a failed branch transaction changes the branch in nothing while the merged content stays |
| IndexEntry.BuildDocuments | internal/indexer/indexer.go:438-451 | one search document per symbol, XML node and TOC line, in order, and one for the file if it is small Lua or XML |
| IndexEntry.CollectResults | internal/indexer/indexer.go:311-320 | the batch has the files and the facts of all results, table by table, in the order of arrival |
| ContentFacts.EncodeDecode | internal/store/branch.go:444-526 | reading a row back through the dictionary gives the fact that was inserted |
| ContentFacts.InsertAddsChosen | internal/store/branch.go:443-533 | inserting facts adds to each content exactly the facts chosen for it, once each, and changes no other item |
| ContentFacts.ChosenOfBatch | internal/store/branch.go:443-533 | of a whole batch a new content gets the facts of the one file its row was made for, whichever other files share it |
| ContentFacts.MergeFilesIsMerged | internal/store/branch.go:422-442 | rows keep their ids, keys stay unique, each path maps to the row of its key, and each new row was made for the file at its fact path |
| ContentFacts.PublishExtends | internal/store/branch.go:385-538 | a merge only adds: rows, strings and facts that were there stay, and new facts belong to new rows |
| ContentFacts.NewItems | internal/store/branch.go:422-533 | a new content has exactly the facts of the result that created its row |
| ContentFacts.OldItemsKept | internal/store/branch.go:422-533 | a content that was there keeps its facts, no matter what is merged |
| ContentSteps.OutcomeIsGood | internal/indexer/indexer.go:236-291 | an entry ends up parsed, or pointing at content that holds its own bytes, whatever the store knows by Git id or hash and whichever objects exist |
| ContentSteps.NewRowIsParsed | internal/indexer/indexer.go:244-283 | a result that was taken over brings no facts, and never creates a content row |
| ContentSteps.NewRowIsGood | internal/store/branch.go:422-533 | the row a merge creates has the complete facts of its bytes |
| ContentSteps.MergeKeepsContent | internal/store/branch.go:385-538 | after a merge every row is complete again, keys are unique and Git ids name the right rows |
| ContentSteps.MergeKeepsGood | internal/store/branch.go:332-345 | the content commit keeps the invariants of all builds and all branches, even if nothing follows it |
| ContentSteps.PublishedText | internal/store/branch.go:540-588 | after a publish the full text has exactly the documents of the covered contents, each under its right text |
| ContentSteps.PublishKeepsGood | internal/store/branch.go:342-383 | the branch commit keeps the invariants of every product and of every other snapshot |
| ContentSteps.StepKeepsGood | internal/indexer/indexer.go:228-349 | every step of every build keeps the invariants |
| ContentTheorems.EveryRowIsComplete | internal/store/branch.go:422-533 | after any run no two rows share hash and language, each row has the facts of parsing its bytes once each, and no fact is without its row |
| ContentTheorems.SnapshotsShowFreshParses | internal/store/branch.go:332-538 | after any run a ready snapshot has exactly the files of its last published build and shows for each what parsing it again and attaching its role shows |
| ContentTheorems.QueriesSeeFreshFacts | internal/query/search.go:74-75 | a query with any condition finds in a ready snapshot exactly what it would find in freshly parsed files |
| ContentTheorems.RunsAgree | internal/store/branch.go:332-538 | two runs that published the same entries show the same facts, whatever was reused, interleaved or stopped |
| ContentTheorems.PublishFailsOnlyForObjects | internal/store/branch.go:347-366 | in a reachable state the branch transaction fails if and only if an object it must read back is missing; no mapping is missing, no path or document is inserted twice |
| FullTextTheorems.FullTextIsExact | internal/store/branch.go:540-588 | a branch covers the content of every file of its ready snapshots, and its full text has exactly the documents of the covered contents |
| FullTextTheorems.FullTextAgrees | internal/store/branch.go:505-518 | after any run every indexed document was made for an item of its file, and is indexed under that item's text, or under the text of its file if it is of kind "source" |
| FullTextTheorems.SourceTextComesBack | internal/indexer/indexer.go:447-451 | after any run a document has the text it was made for if and only if it is not of kind "source" or its own text is its file's; the document of a whole file, whose text is dropped at the merge and read back by hash, always has |
| FullTextTheorems.EveryDocumentIsIndexed | internal/store/branch.go:540-588 | after any run each document that parsing a file of a ready snapshot gives is in the full text, under the text that goes with it |
| FullTextTheorems.FileTextIsIndexed | internal/indexer/indexer.go:447-451 | the text of each small Lua or XML file of a ready snapshot is in the full text of its branch |
| FullTextTheorems.SourceElementLosesItsText | internal/indexer/indexer.go:441-443 | in any ready snapshot with the file `<source name="Bar"/>` the document of that element is indexed under another text than its own |
| PackFormat.DecodeInvertsEncode | internal/objectstore/store.go:528-577 | decoding an encoded header gives back kind, codec, hash and lengths if and only if the kind is known |
| PackFormat.EncodeInvertsDecode | internal/objectstore/store.go:528-577 | a header that decodes is the encoding of what it decodes to if and only if its two spare bytes are zero |
| PackRecords.ReadIsChecked | internal/objectstore/store.go:469-526 | reading a record gives data only if header, kind, length and hash all agree with what was asked for |
| PackRecords.AppendedHolds | internal/objectstore/store.go:101-131 | what `put` appends is a complete record of the data at the old end of the pack |
| PackRecords.HeldIsRead | internal/objectstore/store.go:469-526 | a record that holds data is read back as exactly that data |
| PackRecords.CompactPack | internal/objectstore/store.go:416-467 | compaction copies the kept records in order and gives them their new offsets, or fails on the first short copy |
| PackRecords.CompactionPreservesReads | internal/objectstore/store.go:416-467 | for any kept records of a pack, with gaps or not: compaction succeeds, the new extents tile the new pack without overlap, and each record holds and reads as before |
| PackSpec.PublishAfterFailureLosesRecords | internal/objectstore/store.go:155-184 | a publish after a failed one succeeds although its records are in no pack |
| PackSpec.PublishKeepsItsWord | internal/objectstore/store.go:155-184 | a publish that reports success has its records in the index if and only if its staging file was still open or they were there before |
| PackStore.Catalog.LookupRecord | internal/objectstore/store.go:255-302 | a lookup loads the index on first use and then answers from the cache alone |
| PackStore.Catalog.Open | internal/objectstore/store.go:203-220 | opening by key reads the record the cache names, with all checks |
| PackStore.Catalog.SelectUnique | internal/objectstore/store.go:345-356 | keeps in order exactly the records whose key the index has not |
| PackStore.Catalog.InsertRows | internal/objectstore/store.go:383-401 | both tables change, or neither; it fails exactly if a primary key would break |
| PackStore.Catalog.SeedCache | internal/objectstore/store.go:402-412 | the rows of the commit are added to the cache, and none that it has is changed |
| PackStore.Catalog.PublishRecords | internal/objectstore/store.go:304-414 | filter, compact, rename and commit, with a stop before the rename or the commit leaving the index as it was |
| PackStore.Store.OpenStagingFile | internal/objectstore/store.go:133-152 | a new staging pack starts with the magic and no records |
| PackStore.Store.PutObject | internal/objectstore/store.go:84-131 | put deduplicates against the index and the store itself, or appends a record; a failed write leaves a gap and no record |
| PackStore.Store.PublishPack | internal/objectstore/store.go:155-184 | publish happens at most once and drops the staging pack |
| PackSpec.AbortLosesRecords | internal/objectstore/store.go:155-201 | a publish after an abort reports success, and the index has of the aborted records exactly those it had before |
| PackSpec.PutAfterAbortIsLost | internal/objectstore/store.go:84-100 | data put again after an abort is reported as stored, and can be read back only if it could before |
| PackMachine.StepKeepsGood | internal/objectstore/store.go:304-414 | every step of puts, lookups, publishes, stops and crashes keeps the invariants of disk, caches and stores |
| PackMachine.CommitKeepsDisk | internal/objectstore/store.go:383-401 | a commit changes no row that was there and adds good rows only |
| PackMachine.RepackIsGood | internal/objectstore/store.go:357-369 | what is renamed into place holds all staged records that are not published yet, compacted or not |
| PackTheorems.IndexIsAlwaysReadable | internal/objectstore/store.go:335-401 | at every moment of every run, stopped anywhere, each index row points at a complete record under a matching header and is read back as stored data; pack rows give the sizes of the packs |
| PackTheorems.PublishNeverGetsStuck | internal/objectstore/store.go:335-412 | a publish that meets no fault always has a next step |
| PackTheorems.PublishedDataComesBack | internal/objectstore/store.go:84-184 | after any run of any processes, published data is opened as exactly the bytes put if the cache is not loaded or has the key, and is a miss if and only if not |
| PackTheorems.OneProcessAlwaysHits | internal/objectstore/store.go:255-302 | with one process the cache is not loaded or is the whole index, and all published data comes back |
| PackTheorems.PutPublishOpen | internal/objectstore/store.go:84-220 | data put at any point of a run of one process, once its store has published, is opened as exactly the bytes put, whatever happened in between |
| PackTheorems.StepsArePublish | internal/objectstore/store.go:155-184 | the steps of a publish, taken one after the other, are the publish of the store: same disk, cache and store |
| PackTheorems.SecondProcessMisses | internal/objectstore/store.go:255-302 | a run of two processes in which published data is missed |
| ClosureBuilding.ClosureBuilder.AddDiagnostic | internal/validator/closure.go:392-405 | appends the diagnostic under its display path and changes nothing else |
| ClosureBuilding.ClosureBuilder.AddResolveDiagnostic | internal/validator/closure.go:368-390 | the diagnostic of a reference that does not resolve, by its reason |
| ClosureBuilding.ClosureBuilder.LoadReference | internal/validator/closure.go:152-220 | one reference, with the whole expansion below it, computes the closure function on the builder's fields and ends |
| ClosureBuilding.ClosureBuilder.ExpandXml | internal/validator/closure.go:222-262 | the references of an XML file up to its end or first syntax error |
| ClosureBuilding.ClosureBuilder.ReadToc | internal/validator/closure.go:120-150 | the lines of a TOC in order, with its interface declaration |
| ClosureBuilding.Build | internal/validator/closure.go:29-84 | the closure of a TOC, or the diagnostic why there is none |
| ClosureTrace.LoadFollowsTrace | internal/validator/closure.go:152-220 | one reference of the recursive builder takes the worklist machine from the state before to the state after |
| ClosureTrace.ClosureIsTrace | internal/validator/closure.go:120-262 | files, sources and diagnostics of the builder are those of the worklist machine's log |
| ClosureTheorems.PreorderIsReachability | internal/validator/closure.go:120-262 | the depth-first preorder lists a file if and only if a chain of references leads to it from the TOC |
| ClosureTheorems.TraceAttemptsEachOnce | internal/validator/closure.go:120-262 | every reference of the TOC and of the loaded files is attempted exactly once |
| ClosureTheorems.FilesAreThePreorder | internal/validator/closure.go:120-262 | the file list is the preorder: every reachable readable Lua or XML file, each once, numbered in order, with its contents |
| ClosureTheorems.LoadedByListsTheReferences | internal/validator/closure.go:169-199 | the sources of a file are those of all references that lead to it, in the order they are met |
| ClosureTheorems.ReferencesAreConserved | internal/validator/closure.go:152-215 | references attempted are loads plus reference errors, and duplicate plus circular warnings are loads beyond the first of each file |
| ClosureCycles.LoadWitnessed | internal/validator/closure.go:152-219 | while a reference is loaded the files being expanded are a chain from the TOC to the file at hand, and each circular warning names a file on it |
| ClosureCycles.CircularWarningIffCycle | internal/validator/closure.go:169-219 | there is a circular warning if and only if the include graph reachable from the TOC has a cycle, and each stands at the end of a chain of references from the TOC and names a file on that chain |
| InitScheduler.InitWorkerBudget | internal/app/lifecycle.go:229-244 | the budget is one to eight, as requested if that fits, and by default the processors between four and eight |
| InitScheduler.SourceSyncWorkers | internal/app/lifecycle.go:169-181 | one to three workers, no more than sources, none only without sources |
| InitScheduler.SplitBudget | internal/app/lifecycle.go:246-264 | up to four branches at once, together within the budget, with less than one parser per branch to spare |
| InitScheduler.JobStopsAtFirstFailure | internal/app/lifecycle.go:273-290 | a job alone builds its refs in order up to the first failure, which is its only one |
| InitTheorems.StepKeepsGood | internal/app/lifecycle.go:265-303 | every step keeps: recorded, owed and unsent outcomes are together those of all jobs, and the mutex has one holder |
| InitTheorems.NeverStuck | internal/app/lifecycle.go:265-303 | until the workers are joined some step is possible |
| InitTheorems.StepsRunOut | internal/app/lifecycle.go:265-303 | every step leaves less to do |
| InitTheorems.RunsAreBounded | internal/app/lifecycle.go:265-303 | no schedule is longer than the work at its start |
| InitTheorems.EveryScheduleEnds | internal/app/lifecycle.go:265-303 | from any reachable state a schedule can go on until all workers are joined |
| InitTheorems.JoinedIsComplete | internal/app/lifecycle.go:265-303 | when the workers are joined the lists hold exactly what each job gives on its own |
| InitTheorems.ScheduleDoesNotMatter | internal/app/lifecycle.go:246-315 | any two schedules, with any numbers of workers, return the same sorted lists |
| Ordering.SortIsUnique | internal/app/lifecycle.go:304-313 | a sort has one result if its comparison tells the elements apart |
| BuildPipeline.WorkerCount | internal/indexer/indexer.go:200-208 | at least one worker, as many as requested, four to eight by default |
| BuildPipeline.StepKeepsGood | internal/indexer/indexer.go:228-338 | every step keeps: each path is unsent, held by one worker or collected once; there is an error if and only if a worker failed |
| BuildPipeline.PublishesAllOrFails | internal/indexer/indexer.go:228-349 | whatever the interleaving, a build fails if and only if a worker failed, and otherwise publishes a batch with exactly one file for each entry |
| BuildPipeline.NeverStuck | internal/indexer/indexer.go:228-338 | until the build has decided, a step other than a failure is possible |
| BuildPipeline.EveryBuildEnds | internal/indexer/indexer.go:228-349 | from any reachable state a build can go on to its decision without another failure |
| BuildPipeline.RunsAreBounded | internal/indexer/indexer.go:228-349 | no run is longer than the work at its start |
| BuildPipeline.ProducerIsBlocked | internal/indexer/indexer.go:298-307 | after the decision the producer is blocked for good if and only if entries are left, and then every worker failed |
| BuildPipeline.ProducerLeftBehind | internal/indexer/indexer.go:298-307 | a build can leave its producer blocked if and only if it has more entries than workers |
| BuildPipeline.ProducerCanBeLeftBehind | internal/indexer/indexer.go:298-307 | two entries and one worker that fails: the build has failed and its producer can never go on |
| BuildTheorems.PublishedBatchIsMerged | internal/indexer/indexer.go:228-349 | whatever the interleaving, a batch that is published is that of a build with one good result per entry, as the content machine merges it |
| GeneratedApi.FindLuaTableEnd | internal/indexer/parse.go:355-373 | the two scans find the nearest line above that opens a brace and the line where its braces are closed |
| GeneratedApi.ApiSignature | internal/indexer/parse.go:297-353 | the signature of the parameters read from the sections of the lines of a member |
| GeneratedApi.FindLiteral | internal/indexer/parse.go:270-277 | the first literal name within the lines |
| GeneratedApi.AddMember | internal/indexer/parse.go:264-285 | the symbols of one member, or none where the slice of an event's lines is out of range |
| GeneratedApi.ParseGeneratedAPI | internal/indexer/parse.go:241-290 | the loop over the lines computes the machine that `ParseInvertsText` is about |
| GeneratedApi.EndsBeforeName | internal/indexer/parse.go:355-373 | a table ends above the line before its name if and only if the braces of the nearest opening line are closed there already |
| GeneratedApi.ParseSurvives | internal/indexer/parse.go:268-277 | the parser survives a file if and only if no event line in it goes with a name line below a table that is closed in that way |
| GeneratedPrint.BodyIsNested | internal/indexer/parse.go:355-373 | the braces of a printed member close where it ends, whatever blocks and members it contains |
| GeneratedText.ParseFile | internal/indexer/parse.go:241-290 | the parser on the text of the lines |
| GeneratedText.PrintedLooks | internal/indexer/parse.go:17-25 | the patterns take from a printed line, however indented, exactly what was printed; a section is seen if and only if its brace or `nil` is on its line |
| GeneratedText.FieldFound | internal/indexer/parse.go:313-323 | a parameter is read with name, type and nilability, whatever gap and attributes its table has beside them |
| GeneratedText.OtherKeysAreLoose | internal/indexer/parse.go:17-25 | a line that sets any other key, or a block under one, is seen as nothing by the parser |
| GeneratedText.ClosedTableBeforeEvent | internal/indexer/parse.go:268-277 | a text of four lines that the parser does not survive |
| GeneratedTheorems.MemberIsFound | internal/indexer/parse.go:264-285 | a printed member, with sections, `nil` sections, attributes, blocks and members inside it, is found with its end line, parameters, literal name and signature |
| GeneratedTheorems.ParseInvertsPrint | internal/indexer/parse.go:241-373 | parsing printed lines gives back systems, members, qualified names, aliases, end lines and signatures |
| GeneratedTheorems.ParseInvertsText | internal/indexer/parse.go:241-373 | the same for the text of a document with any indentation and loose lines |
| GeneratedBraces.BraceDecides | internal/indexer/parse.go:297-331 | of a member printed with each section's brace on its line or on the next one, the parser has the parameters of a section if and only if its brace stands on its own line |
| GeneratedBraces.SignatureHasSeen | internal/indexer/parse.go:332-353 | those parameters, and no others, are in the signature |
| GeneratedBraces.LostSignature | internal/indexer/parse.go:297-353 | a text of twelve lines whose function is indexed without its argument |
| Like.EscapedText | internal/query/search.go:161-163 | an escaped text followed by any pattern matches the text, up to ASCII case, and then the pattern on the rest |
| Like.PrefixPattern | internal/query/search.go:82-85 | the prefix search finds exactly the values that start with the text |
| Like.ContainsPattern | internal/query/search.go:180-186 | the relation search finds exactly the values in which the text occurs |
| Like.AssetPattern | internal/query/search.go:101-106 | the lower-cased asset pattern finds exactly the paths in which the text occurs |
| Like.UnescapedFindsMore | internal/query/search.go:161-163 | without escaping an underscore would match any character |
| CompatLookup.SettleIsStable | internal/query/compat.go:297-309 | sorting the first matches again where they are changes nothing |
| CompatLookup.FactIsJustified | internal/query/compat.go:146-161 | a fact is present if and only if something was found; its evidence is the first few matches in order, its signature that of the first; absence is reported only where the snapshot can prove it |
| CompatLookup.MatchEvidence | internal/query/compat.go:297-309 | the first matches are sorted in place, the others stay, and the copies are those |
| CompatLookup.Resolver.Resolve | internal/query/compat.go:133-143 | the cache gets the entry of a name, and every entry agrees with the snapshot |
| CompatLookup.Resolver.Lookup | internal/query/compat.go:133-162 | whatever was looked up and sorted before, a cached lookup gives what an uncached one gives |
| CompatLookup.JudgeUsage | internal/query/compat.go:77-104 | one usage is a fact, an unresolved item or an error, as without a cache |
| CompatLookup.JudgeDeclared | internal/query/compat.go:105-116 | the declared interface is a fact, an unresolved item or an error, as without a cache |
| CompatLookup.LookupCompatibility | internal/query/compat.go:61-118 | all usages in order, then the declared interface unless a usage names it, as without a cache |
| Validate.LookupEvidence | internal/app/validation.go:162-192 | a lookup gives its facts and unresolved items, and one error for each absent fact, in order |
| Validate.HasErrors | internal/validator/validate.go:70-77 | there is an error if and only if some diagnostic is one |
| Validate.CountTypes | internal/validator/validate.go:34-42 | Lua and XML files are counted, and every file is one of them |
| Validate.Validate | internal/validator/validate.go:17-68 | the diagnostics of closure, analysis and lookup, the verdict, the counts and the coverage of a validation |
| Validate.ErrorsOf | internal/app/validation.go:174-180 | no diagnostic is an error if and only if the closure has none, every Lua file parses, and every fact found is present |
| Validate.VerdictIsExact | internal/validator/validate.go:32-58 | an AddOn is valid if and only if nothing is wrong with its files and the snapshot refutes no usage and not the declared interface: it has facts of the kind and none of the name |
| VerdictTheorems.VerdictIsOfFreshParses | internal/query/compat.go:164-230 | after any run of builds, that verdict is what freshly parsing the snapshot's files would give |
| Validate.UsagesAreAnsweredOnce | internal/query/compat.go:77-104 | each usage has one verdict, a fact or an unresolved item, both in input order |
| Validate.AnswersAreCounted | internal/query/compat.go:77-116 | answers are as many as usages, and one more for an interface no usage names |
| Validate.CoverageIsBalanced | internal/validator/validate.go:22-65 | resolved plus unresolved is checked plus the analysis' own unresolved, if and only if the coverage fits |
| Validate.CoverageOfAnalysis | internal/validator/analyze.go:55-212 | for usages of the kinds the analysis emits, with a snapshot, the coverage always fits |
| Validate.NamedInterfaceIsCountedTwice | internal/validator/validate.go:55-65 | a usage that names the declared interface is counted twice and answered once |
| Validate.UncheckedIsCounted | internal/validator/validate.go:55-65 | without a snapshot a usage is counted as checked and as nothing else |
| Ordering.SortedKeys | internal/validator/matrix.go:269-276 | the keys, each once, in strictly ascending order |
| Matrix.CollectFiles | internal/validator/matrix.go:119-129 | the files of each target as a set, all paths, and an empty list per target |
| Matrix.IsInAll | internal/validator/matrix.go:132-138 | whether every target has the path |
| Matrix.AppendToOwners | internal/validator/matrix.go:143-147 | appends the path to the lists of exactly the targets that have it |
| Matrix.MergeFiles | internal/validator/matrix.go:112-151 | shared is the intersection, each target's list its other files, all strictly sorted |
| Matrix.FilesArePartitioned | internal/validator/matrix.go:112-151 | the files of a target are the disjoint union of shared and its own |
| Matrix.FilesIgnoreOrder | internal/validator/matrix.go:112-151 | permuting the targets changes nothing |
| MatrixFacts.CollectFacts | internal/validator/matrix.go:61-78 | the table of a name has for each target its last included fact |
| MatrixFacts.CompareTargets | internal/validator/matrix.go:82-96 | the value of each target, and whether all have observed the same |
| MatrixFacts.MergeFacts | internal/validator/matrix.go:55-110 | shared names are those all targets observed alike; every other observed name is a difference with a value for each target |
| MatrixFacts.FactsArePartitioned | internal/validator/matrix.go:98-107 | an observed name is shared or a difference and not both |
| MatrixFacts.FactsIgnoreOrder | internal/validator/matrix.go:55-110 | permuting the targets changes nothing |
| MatrixDiagnostics.KeyTellsApart | internal/validator/matrix.go:202-205 | diagnostics with one key differ at most in their evidence |
| MatrixDiagnostics.CollectItems | internal/validator/matrix.go:163-170 | the first diagnostic of each key |
| MatrixDiagnostics.FindInAll | internal/validator/matrix.go:176-187 | whether every target has the key, and the diagnostic of the first |
| MatrixDiagnostics.MergeDiagnostics | internal/validator/matrix.go:153-200 | by keys as for files; the shared diagnostics are the first target's |
| MatrixDiagnostics.DiagnosticsArePartitioned | internal/validator/matrix.go:153-200 | the keys of a target are the disjoint union of shared and own keys, strictly sorted, and its own diagnostics are its own |
| MatrixDiagnostics.KeysIgnoreOrder | internal/validator/matrix.go:153-200 | permuting the targets changes no keys |
| VisibleTheorems.SnapshotShowsByRole | internal/query/search.go:74-75 | after any run a file of a ready snapshot shows exactly those of the stored facts of its bytes that ask for no role or for the role of the file, in their order |
| VisibleTheorems.QueriesFindByRole | internal/query/search.go:74-75 | a query with any condition finds a fact in such a file if and only if the fact meets the condition, is among the facts of the bytes, and asks for no role or for the role of the file |
| IndexEntry.DocumentsAreListed | internal/indexer/indexer.go:438-451 | each search document by its place: its role, name, kind, text and line, for symbols, XML nodes, TOC lines and the whole file |
| IndexEntry.LanguageByExtension | internal/indexer/indexer.go:483-503 | which extensions give which language |
| IndexEntry.RoleByPath | internal/indexer/indexer.go:531-547 | the role of a file by what occurs in its path, the first rule that applies |
| ContentSteps.EntryIsReused | internal/indexer/indexer.go:236-291 | an entry takes over the row of its Git id, or else the row of its bytes, if that row's object is there, and is parsed otherwise |
| ContentSteps.PublishIsRecorded | internal/store/branch.go:342-383 | a publish makes its snapshot ready and active, adds the contents, and leaves the files of every other snapshot as they are |
| PackFormat.HeaderLayout | internal/objectstore/store.go:528-564 | where each field of a record header stands, byte by byte |
| PackFormat.HexTextOf | internal/objectstore/store.go:63-63 | a hash is written in lower-case digits, the high half of a byte first |
| PackRecords.RecordLayout | internal/objectstore/store.go:84-131 | an asset is stored as it is and anything else compressed, behind a header with both lengths and the digest |
| PackSpec.PutAnswers | internal/objectstore/store.go:84-131 | `reused` holds if and only if the object was put through the store or indexed before; otherwise one record more is staged; a failed write keeps nothing |
| ClosureReading.ReferencesAreTheElements | internal/validator/closure.go:222-262 | the references of an XML file are those of its Script and Include elements before the first syntax error, in document order, and no others |
| ClosureReading.AttemptsOfFile | internal/validator/closure.go:241-260 | a file of the include graph holds a reference if and only if it is XML and has such an element with that value, line and name |
| ClosureReading.TocLineMeans | internal/validator/closure.go:124-141 | what a TOC line means, by its trimmed text: a reference, the declared interface, or nothing |
| ClosureReading.RootsAreTheLines | internal/validator/closure.go:120-143 | the references of a TOC are its entry lines, in order, with their line numbers |
| ClosureReading.LastInterfaceCounts | internal/validator/closure.go:131-136 | the interface of a closure is the last one its TOC declares, or empty |
| ClosureReading.ReferenceIsClassified | internal/validator/closure.go:152-199 | when a reference leads to a file, and under which code, place and evidence it is rejected otherwise |
| ClosureReading.RejectionsAreThoseOf | internal/validator/closure.go:152-199 | the errors of a list of references are those of its rejected references, in order |
| ClosureReports.BrokenFilesAreReported | internal/validator/closure.go:222-240 | a closure reports a syntax error for exactly the loaded XML files that have one, each at its first |
| ClosureReports.DuplicateNamesFirstLoader | internal/validator/closure.go:169-188 | a duplicate warning names the source by which its target was loaded first |
| BuildPipeline.RejectedWithFirstError | internal/indexer/indexer.go:321-345 | a build is rejected with the error of the first failure of its run, however many workers fail |
| GeneratedIndex.EventHasItsAlias | internal/indexer/parse.go:264-285 | a printed event whose first literal name differs from its name has exactly two symbols, on the same lines and with the literal name in both signatures |
| GeneratedIndex.MemberHasOneSymbol | internal/indexer/parse.go:264-285 | any other printed member has exactly one symbol, of its kind and with its qualified name in the signature, unless its literal name is its own name |
| GeneratedIndex.ParamsAreListed | internal/indexer/parse.go:332-343 | the text of parameters: name, `?` if it may be nil, colon, type; joined by commas |
| GeneratedIndex.SignatureIsRead | internal/indexer/parse.go:344-353 | the signature of a function, an event and any other member, by the texts of its parameters |
| Like.SearchesIgnoreAsciiCase | internal/query/search.go:82-106 | letter by letter: the prefix search finds the values that start with the text and the others those in which it occurs, up to the case of ASCII letters only |
| CompatVerdicts.KindIsSpelled | internal/query/compat.go:255-272 | which spellings mean which kind |
| CompatVerdicts.VerdictOfNamed | internal/query/compat.go:77-104 | a usage with a known kind and a name is decided by what the snapshot finds of that kind under that name, and keeps its own place |
| CompatVerdicts.VerdictOfOthers | internal/query/compat.go:84-91 | a usage with any other spelling, or without a name, is left open under the reason for it |
| CompatVerdicts.RefutedBySpelling | internal/query/compat.go:77-104 | when the snapshot refutes a usage, by the spelling of its kind |
| CompatVerdicts.SortIsStable | internal/query/compat.go:297-304 | matches at one path and line keep their order when they are sorted |
| CompatVerdicts.OrderedByPlace | internal/query/compat.go:297-304 | the evidence is ordered by path and then by line |
| CompatVerdicts.AbsencesNameTheFacts | internal/app/validation.go:174-207 | each absent fact and no other is reported, in order, under the code of its kind and where its usage stands |
| VerdictTheorems.LookupsOfFact | internal/query/compat.go:164-205 | which lookups, by kind and name, a stored fact answers |
| VerdictTheorems.PartsJoinAgain | internal/query/compat.go:234-241 | the parts of a declared interface hold no comma and give the text again when joined |
| MatrixDiagnostics.KeysInOrder | internal/validator/matrix.go:202-205 | diagnostics of one severity, code and file are ordered by line and then by column, as numbers below ten digits' bound |
| InitTheorems.ListsAscend | internal/app/lifecycle.go:304-313 | the returned lists ascend by snapshot id, and by source, product and ref |
| Ordering.BeforeIsLexicographic | internal/validator/matrix.go:269-276 | strings are ordered by the first place where they differ |
| Text.TrimSpaceIsExact | internal/validator/closure.go:126-126 | trimming takes the white space off both ends, all of it and nothing else |
| Text.ExtensionIsSuffix | internal/validator/closure.go:159-160 | an extension runs from the last dot of the last path element |
| CompatVerdicts.VerdictOfDeclared | internal/query/compat.go:105-116 | the declared interface is decided by what the snapshot finds, and otherwise left open under its own reason |
| ClosureReports.UnreadTocIsReported | internal/validator/closure.go:29-84 | without a readable TOC the closure has no files and exactly one error, whose code follows the reason |
| Text.WhiteSpace | internal/validator/closure.go:126-126 | which characters are white space |
| PackStore.Store.AbortPack | internal/objectstore/store.go:186-201 | an abort drops the staging pack and nothing else |

## Left out

- SQLite, WAL, BM25, row ids other than their order, gzip, SHA-256, the XML tokenizer, the Lua grammar: library code, taken as functions with the assumptions above.
- The resolution of references on the file system (symbolic links, letter case, volumes): a fixed partial function.
- `parseLua`, the XML walk and `parseTOC` of the indexer: the facts they find are given by the `Indexer` value.
- Legacy single-object files beside the packs, and the walk that opens them.
- The lock files: one merge at a time and one index transaction at a time are taken as given.
- Cancellation of a build and of `runInitJobs`, and the goroutines of `runSourceSyncJobs`, which are those of the init pool with one step per job.
- Message texts of diagnostics and errors, exit codes, JSON shapes, the CLI.
- The early return of a build whose snapshot is ready, the manifest file, and the statistics of a build.
- Ranking, excerpts, topic filters and the full-text query language of a search.
- The order of the rows that `compatibilityMatches` returns, and their columns: `Answers` says which names and kinds it finds.
- `interfaceSummary` and `sortedUnresolved`: sorts of one target's own lists.
- Characters are Unicode code points; NUL inside a name and LIKE on it are not considered.
- ContentStore.SharedContent.MergeBatch: the rows of the assets table are left out, because asset facts, image headers and MIME types depend on the first path seen and not on the bytes alone.
- ContentStore.BranchStore.PublishSnapshot: the rows of `snapshot_assets` and the metadata columns of a snapshot are left out; nothing here reads them.
- IndexEntry.CollectResults: assets, diagnostics and statistics of the results are not collected.
- ClosureBuilding.Build: the AddOn root is taken as opened; the errors of opening it end a validation before anything is read.
- Validate.Validate: the analysis of the loaded files is given, not modelled.
- GeneratedTheorems.ParseInvertsText: the type of a member follows its name directly, a namespace the type of its system, and each parameter is a table on one line with name and type first.
- MatrixDiagnostics.KeysInOrder: a number of eleven digits breaks the fixed width of the key, and with it the order by number.
- InitTheorems.ScheduleDoesNotMatter: the error message of a failure is not modelled.
