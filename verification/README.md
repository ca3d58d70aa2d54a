# A verified model of vvaharness

vvaharness scans a repository with language models, keeps its progress in a SQLite store, and
reports and remediates what it finds. This project models the parts of it whose correctness is
hardest to see, and proves what each is for:

| Dafny module | models |
|---|---|
| `JsonGrammar`, `BalancedSpan`, `EscapeRepair`, `ExtractJson`, `FencedBlocks` | finding the JSON value in what a model answers: the bracket scanner, the escape repairer and the search over candidates |
| `Abort` | cooperative abort of worker subprocesses, as a state machine over interleaved steps |
| `CliRetry`, `RetryLoop` with `SdkRetry` and `OaiRetry`, `OaiAgentic` with `ToolTurns` | the retry loops against an adversarial process or server |
| `PyText`, `CallGraphRows`, `RowMeaning`, `GraphNormalForm`, `GraphStore`, `StoreTables` | the state store: checkpoints and content-addressed call-graph snapshots, what their rows say of a graph, and the normal form they keep |
| `ScanResume`, `Remediation` with `ResumedRuns` | a scan and a remediation stopped anywhere and resumed |
| `BoundedBfs`, `ContextTrim` with `TrimmedContext`, `GraphView` with `LineLookup` (and `Selections`) | reachability within a hop bound, trimming a context for a prompt, the shared graph indices and their cache |
| `Backfill`, `Enrich` with `EnrichedReport` (and `ReportFile`) | the two in-place rewriters of a findings report |
| `Cvss`, `KnownScores` | the two ways of rounding a score up, base and environmental scores |

Loops and objects of the program are methods and classes, each proved against a function that says
what it computes; the lemmas then say what that function is good for. Lists of a program's
dictionary are sequences where their order matters and maps where it does not. `dfyconfig.toml`
makes `dafny verify dfyconfig.toml` check everything.

What the model takes as given is always a parameter: `loads` is `json.loads`, a plan's `read` and
`dump` are the checkpoint schemas, `fetch` is the order in which SQL returns node rows, a `Rules`
value holds what the regular expressions say of a line, a `Server` answers requests as it likes.

## What was found

- A JSON text whose string literal quotes a fenced block is not always extracted: the quoted block
  may be found first. `ExtractsTheText` says exactly when the value of the text is returned, and
  `FencedLiteralShadowsTheText` gives a text for which it is not.
- `_repair_invalid_escapes` doubles `\b` and `\f`, which RFC 8259 (section 7) allows; `RepairKeepsMeaning` holds for the
  program's own set of escapes.
- The streaming runner does not read the abort flag after registering its process.
  `StreamingWorkerCanEscape` is a run in which `abort()` has returned and a streaming worker waits
  for a live process; for the heartbeat path there is none.
- A fresh scan cut off between registering its run and resetting it leaves every checkpoint of an
  earlier scan loadable (`StaleBeforeReset`); past the reset none is. A scan resumed after such a cut
  is still right when the store holds nothing of another scan (`ScanUntilDone`).
- Saving a hydrated graph gives back its rows exactly when there is a node, an entry point or a sink
  left to save (`NormalForm`).
- A request of `sdk.prompt` never carries both droppable parameters, so four requests are the
  most it sends, not five.
- A finding shares its identity with a different one exactly when its title, file or body holds a NUL
  (`SharedIff`); `NulMovesTheBorder` is such a pair.
- The two roundings differ (`RoundingsDifferHere`), but on no score of a vector: the two modules give
  every vector the same base score (`ModulesAgree`).
- Names without a file part are the only ones that split alike: `f` and `::f` (`SplitsAlikeIff`).

## Model

| member | source | states |
|---|---|---|
| `BalancedSpan.BalancedSpan` | vvaharness/util/json_extract.py:62-86 | the scanner returns the shortest prefix from the opener that balances, and nothing exactly when no prefix does |
| `BalancedSpan.SpanIsUnique` | vvaharness/util/json_extract.py:62-86 | whatever balanced span stands at a position is what the scanner returns there |
| `BalancedSpan.SpansDoNotNest` | vvaharness/util/json_extract.py:62-86 | no balanced span is a proper prefix of another |
| `BalancedSpan.TextIsSpan` | vvaharness/util/json_extract.py:62-86 | the text of every object or array, any whitespace and escapes, known or not, is one balanced span, although only one bracket kind is counted |
| `BalancedSpan.ScannerFindsText` | vvaharness/util/json_extract.py:62-86 | inside any prefix and suffix the scanner returns exactly the text of the value |
| `BalancedSpan.ScannerFindsRfcText` | vvaharness/util/json_extract.py:62-86 | so it does for every object or array of RFC 8259 (sections 4, 5 and 7) |
| `EscapeRepair.RepairInvalidEscapes` | vvaharness/util/json_extract.py:37-59 | the loop computes the repair |
| `EscapeRepair.RepairedIsClean` | vvaharness/util/json_extract.py:34-59 | in repaired text every backslash belongs to an escape of the program's set |
| `EscapeRepair.UnchangedIffClean` | vvaharness/util/json_extract.py:34-59 | a text is unchanged exactly when it is already so |
| `EscapeRepair.RepairIsIdempotent` | vvaharness/util/json_extract.py:37-59 | repairing twice is repairing once |
| `EscapeRepair.RepairKeepsReading` | vvaharness/util/json_extract.py:37-86 | the scanner reads a text and its repair alike from any state |
| `EscapeRepair.RepairKeepsSpans` | vvaharness/util/json_extract.py:37-86 | a text is a balanced span exactly when its repair is |
| `EscapeRepair.RepairFixesText` | vvaharness/util/json_extract.py:37-59 | repairing the text of a value gives the text of that value with its string literals mended, and nothing else changed |
| `EscapeRepair.RepairKeepsMeaning` | vvaharness/util/json_extract.py:37-59 | a mended literal reads as the original does, a stray backslash standing for itself |
| `EscapeRepair.RepairedIsRfcIff` | vvaharness/util/json_extract.py:34-59 | a mended literal is one of RFC 8259 (section 7) exactly when nothing but escapes was wrong with it |
| `ExtractJson.Extract` | vvaharness/util/json_extract.py:89-165 | the search over fenced blocks and the whole text, with the list held back, computes the specified result, errors of the parser included, and ends |
| `ExtractJson.HitIsFirst` | vvaharness/util/json_extract.py:125-165 | the result is decided by the first span, in the order tried, that is accepted or on which the parser raises another error than a decode error |
| `ExtractJson.ListOnlyAsLastResort` | vvaharness/util/json_extract.py:118-165 | when the response starts with a brace past an opening fence, a list comes back only if no scanned span parses, directly or repaired, to an object |
| `ExtractJson.ExtractsTheText` | vvaharness/util/json_extract.py:89-165 | prose in which every opening bracket is a stray one that nothing balances, then the text of v, then anything: v comes back if and only if no fenced block is accepted first with another value |
| `ExtractJson.ExtractsTheHeldList` | vvaharness/util/json_extract.py:118-165 | a list behind a stray brace is held back, and comes back if and only if no span is accepted and no fenced block holds another list before it |
| `ExtractJson.ProseIsSkipped` | vvaharness/util/json_extract.py:89-165 | prose without any opening bracket has no stray one: the same holds of it, lists included |
| `ExtractJson.FenceFreeExtractsTheText` | vvaharness/util/json_extract.py:89-165 | without a second fence marker v comes back |
| `ExtractJson.ExtractsTheMendedText` | vvaharness/util/json_extract.py:140-165 | a text rejected only for its escapes comes back as its repair is read |
| `ExtractJson.WholeFenceExtractsTheText` | vvaharness/util/json_extract.py:101-112 | a response that is one fenced block of the text of v, with or without "json" and any blanks, gives v, whatever backticks it quotes |
| `ExtractJson.FencedBlockWins` | vvaharness/util/json_extract.py:89-165 | a fenced block that is one acceptable span wins wherever it stands |
| `ExtractJson.FencedLiteralShadowsTheText` | vvaharness/util/json_extract.py:101-118 | a JSON text whose literal quotes a fenced object loses to that object |
| `FencedBlocks.EveryBlockIsTried` | vvaharness/util/json_extract.py:89-165 | of a response made of any backtick-free pieces of prose and fenced bodies, with or without "json", and any rest: when no span of the first k bodies is accepted or breaks the parser, nor of the one block the whole response may be read as, and body k is one acceptable span, the value of body k comes back |
| `FencedBlocks.BodiesAreFound` | vvaharness/util/json_extract.py:109-112 | every fenced body of such a response is a candidate, in order |
| `FencedBlocks.PlainWantsDict` | vvaharness/util/json_extract.py:114-123 | a response that starts with no marker wants an object exactly when it starts with a brace |
| `FencedBlocks.FencedWantsDict` | vvaharness/util/json_extract.py:114-123 | one that starts with a marker, perhaps a word, and blanks, wants one exactly when a brace comes next |
| `FencedBlocks.LongTextIsCut` | vvaharness/util/json_extract.py:89-100 | nothing past five million characters is looked at |
| `FencedBlocks.NothingToFind` | vvaharness/util/json_extract.py:89-165 | without a second marker and any opening bracket there is no JSON |
| `FencedBlocks.UnreadableIsRaised` | vvaharness/util/json_extract.py:140-165 | of one span that the parser cannot read even when mended the decode error is raised, and any other error of the parser at once |
| `Abort.RunKeepsInv` | vvaharness/backends/claude_cli.py:60-90 | what every step of workers and aborter keeps: a waiting process is in the snapshot and due to be killed, or registered late by an owner that has yet to read the flag |
| `Abort.AbortLeavesNobodyWaiting` | vvaharness/backends/claude_cli.py:60-90 | over every interleaving, once abort has returned no worker on the heartbeat path waits for a live process |
| `Abort.AtMostOneLateProcess` | vvaharness/backends/claude_cli.py:530-577 | a call starts at most one process after the flag is set |
| `Abort.StreamingWorkerCanEscape` | vvaharness/backends/claude_cli.py:599-636 | the same fails for the streaming runner: a run that shows it |
| `Abort.WorkersDrain` | vvaharness/backends/claude_cli.py:530-577 | in every run, from the moment the flag is set, a worker takes at most nine more steps |
| `Abort.WorkersAreNeverStuck` | vvaharness/backends/claude_cli.py:530-577 | a worker still in a call always has a next step |
| `Abort.IdleLeavesNothingLive` | vvaharness/backends/claude_cli.py:530-577 | in every state of every run each live process has a worker that still owns it: once all are idle the live set is empty |
| `CliRetry.Backoff` | vvaharness/backends/claude_cli.py:832-838 | the naps of a backoff, as a function of the flag readings |
| `CliRetry.NapTells` | vvaharness/backends/claude_cli.py:832-838 | a backoff sleeps all of its time, or the last reading found the flag set |
| `CliRetry.RunWithRetry` | vvaharness/backends/claude_cli.py:793-838 | the loop computes what a call comes to for any course of runs and flag readings |
| `CliRetry.CallIsBounded` | vvaharness/backends/claude_cli.py:793-838 | at most six runs and 450 seconds of backoff; every run but the last was a timeout or a transient failure retried within both budgets, and the end is what the last run and the budgets or the flag justify |
| `CliRetry.WorstCall` | vvaharness/backends/claude_cli.py:793-838 | a course of runs for which both bounds are reached |
| `CliRetry.ResultsEndTheCall` | vvaharness/backends/claude_cli.py:793-838 | a run that is ok, capped, or failed for good is the result at once |
| `CliRetry.AbortsEndTheCall` | vvaharness/backends/claude_cli.py:793-838 | an abort seen in a run ends the call, and a timeout does when the flag is set |
| `CliRetry.TimeoutIsRetriedOnce` | vvaharness/backends/claude_cli.py:793-838 | one timeout is retried, a second raised |
| `CliRetry.FailuresAreSleptOff` | vvaharness/backends/claude_cli.py:793-838 | up to four transient failures are slept off, thirty seconds and twice as long each time, and the run that is ok after them is the result |
| `CliRetry.FifthFailureIsTheResult` | vvaharness/backends/claude_cli.py:793-838 | a fifth is the result |
| `CliRetry.Agentic` | vvaharness/backends/claude_cli.py:979-1031 | the loop computes what an agentic call comes to |
| `CliRetry.AgenticTells` | vvaharness/backends/claude_cli.py:979-1031 | at most four rounds; a result is what the last run answered, ok and no longer pending, and giving up comes only after four pending answers |
| `CliRetry.RoundsGoOn` | vvaharness/backends/claude_cli.py:1006-1031 | each round before the last, by its number, ended with a run whose answer was pending and a backoff slept to its end |
| `CliRetry.PendingIsAskedAgain` | vvaharness/backends/claude_cli.py:1006-1031 | a pending answer is asked for again after five, fifteen or thirty seconds |
| `CallGraphRows.GraphRows` | vvaharness/orchestrator/store.py:280-350 | the node and edge rows of a graph, with the start line taken from spans, sites or metadata in that order |
| `RowMeaning.RowsAre` | vvaharness/orchestrator/store.py:280-350 | for every graph: there is a row for every caller, every callee of a named caller, and every name of an entry point, a sink or a span, and an edge for every call between names; nothing is stored of a graph without any part |
| `RowMeaning.EntryPointsAre` | vvaharness/orchestrator/store.py:289-296 | a row is an entry point if and only if some listed entry point has its name |
| `RowMeaning.LastEntryTells` | vvaharness/orchestrator/store.py:289-296 | its kind, and whether it is reachable without authentication, are those of the last such one |
| `RowMeaning.SinksAre` | vvaharness/orchestrator/store.py:298-304 | it is a sink if and only if some listed sink has its name, and its line is the least of the first such line and the later ones that are not zero |
| `RowMeaning.LinesAreTheSpan` | vvaharness/orchestrator/store.py:324-334 | its lines are those of its span, if that has a start or its function no site in the file |
| `RowMeaning.LineIsTheSite` | vvaharness/orchestrator/store.py:270-334 | otherwise its start is the number n of the first site that is its file, a colon and the decimal text of n, and so is its end if the span has none |
| `RowMeaning.TextIsRead` | vvaharness/orchestrator/store.py:270-277 | int() reads back the decimal text of every number, up to the length it allows |
| `RowMeaning.QnodeIs` | vvaharness/orchestrator/store.py:253-256 | a name is the file, backslashes turned, then "::" and the function |
| `RowMeaning.PartsOfName` | vvaharness/orchestrator/store.py:259-267 | a row's file and function are the parts of its name at the last "::" |
| `CallGraphRows.LoadRows` | vvaharness/orchestrator/store.py:428-502 | what is put together from stored rows: calls, sites and spans |
| `RowMeaning.RowsGiveSites` | vvaharness/orchestrator/store.py:428-502 | a row with a file, a function and a start is a site of its function, file, colon and decimal text |
| `RowMeaning.SitesAreRows` | vvaharness/orchestrator/store.py:428-502 | every site is that of such a row, and none is listed twice |
| `RowMeaning.RowsGiveSpans` | vvaharness/orchestrator/store.py:428-502 | a row has its two lines as its span, unless both are zero |
| `CallGraphRows.SortEdges` | vvaharness/orchestrator/store.py:470-484 | each edge once, in the order of score and names |
| `RowMeaning.EdgesFirst` | vvaharness/orchestrator/store.py:470-484 | an edge at a function reachable without authentication precedes one at none; of others alike in that, those at entry points precede, then those at sinks, then the order is by names |
| `RowMeaning.LessIs` | vvaharness/orchestrator/store.py:470-484 | names are ordered by the first character in which they differ, a prefix first |
| `GraphNormalForm.CallsAreOrdered` | vvaharness/orchestrator/store.py:470-488 | the callees of a caller are listed in that order |
| `GraphNormalForm.SplitsAlikeIff` | vvaharness/orchestrator/store.py:259-267 | two names split alike if and only if they are equal, or one is a name x with no "::" in ":" + x and the other that name after "::" |
| `GraphNormalForm.SplitIsInjective` | vvaharness/orchestrator/store.py:259-267 | with a file part names that split alike are equal |
| `GraphNormalForm.SiteHasRow` | vvaharness/orchestrator/store.py:428-502 | every loaded site comes from a row with a start line |
| `GraphNormalForm.CallsAreEdges` | vvaharness/orchestrator/store.py:428-502 | loaded calls are exactly the stored edges with both ends named |
| `GraphNormalForm.NormalForm` | vvaharness/orchestrator/store.py:280-350 | saving a hydrated graph gives the very rows it was loaded from, if and only if a node, an entry point or a sink is left |
| `GraphNormalForm.LoadedCallers` | vvaharness/orchestrator/store.py:428-502 | every node is a key of the loaded calls |
| `GraphStore.Store.SaveCkpt` | vvaharness/orchestrator/checkpoints.py:124-153 | the tables after a checkpoint is saved; oversized payloads are not stored |
| `GraphStore.LoadsLastSaved` | vvaharness/orchestrator/checkpoints.py:124-209 | over any history, what is loaded is what was last saved under that run and step and neither refused for its size nor dropped since, if it is valid |
| `GraphStore.RegisteringChangesNoLoad` | vvaharness/orchestrator/store.py:232-250 | registering makes the run a run and changes nothing any run can load |
| `GraphStore.Store.SaveCallgraph` | vvaharness/orchestrator/store.py:353-425 | a new snapshot with its rows and counts, or a reference to the one there is |
| `GraphStore.Store.LoadCallgraph` | vvaharness/orchestrator/store.py:428-502 | the graph of the snapshot the step refers to |
| `GraphStore.Store.ResetRun` | vvaharness/orchestrator/store.py:505-530 | the run's checkpoints, snapshots, rows and references are gone, and counted |
| `GraphStore.Store.DeleteRun` | vvaharness/orchestrator/store.py:533-548 | so is the run itself |
| `GraphStore.ApplyKeepsValid` | vvaharness/orchestrator/store.py:42-183 | every operation keeps every row with its parent and every snapshot with its own rows and counts |
| `GraphStore.AlwaysValid` | vvaharness/orchestrator/store.py:232-548 | after any sequence of operations the store is so |
| `GraphStore.LoadIsFaithful` | vvaharness/orchestrator/store.py:353-502 | over any history a load returns exactly the non-empty edges, with every node as a key, of a snapshot of its own run with the right counts |
| `GraphStore.LoadAfterSave` | vvaharness/orchestrator/store.py:353-502 | loading after saving gives the graph back in normal form |
| `GraphStore.RunsAreIsolated` | vvaharness/orchestrator/store.py:505-548 | no operation on one run changes what another run can load |
| `GraphStore.ResetForgets` | vvaharness/orchestrator/store.py:505-530 | a reset run has nothing left to load |
| `StoreTables.DeletedForgets` | vvaharness/orchestrator/store.py:533-548 | a deleted run is a run no more, and has nothing left to load |
| `StoreTables.CountsAreSums` | vvaharness/orchestrator/store.py:353-425 | a snapshot counts its rows, its edges, its entry points and its sinks, in whatever order the rows are listed |
| `ScanResume.Scan.HydrateContext` | vvaharness/orchestrator/scan.py:58-78 | the first stored graph of the steps is put back into the context |
| `ScanResume.HydratingTwice` | vvaharness/orchestrator/scan.py:346-358 | putting the same stored graph back again changes nothing |
| `ScanResume.CkptKeepsAgreement` | vvaharness/orchestrator/checkpoints.py:124-153 | a checkpoint write keeps all that can be loaded equal to what an undisturbed scan writes |
| `ScanResume.GraphKeepsAgreement` | vvaharness/orchestrator/store.py:353-425 | so does a graph write |
| `ScanResume.Scan.Verifying` | vvaharness/orchestrator/scan.py:333-384 | steps 5 to 7, cached or not, give the verdicts of an undisturbed scan |
| `ScanResume.Scan.ScanRepo` | vvaharness/orchestrator/scan.py:114-423 | a scan cut off before any write, fresh or resumed, leaves only what an undisturbed scan would have written, and any report it returns is that scan's; past its reset a fresh scan leaves no earlier checkpoint; a finished scan leaves every checkpoint but oversized ones and those its schema refuses, and a scan resumed on such a store computes no step but these |
| `ScanResume.ScanUntilDone` | vvaharness/orchestrator/scan.py:114-423 | cut off anywhere, any number of times, then resumed, the report is that of one uninterrupted scan, and so are the checkpoints left; a cut before the reset needs a store without what another scan left |
| `ScanResume.NothingStoredAgrees` | vvaharness/orchestrator/scan.py:114-128 | as is a store that holds nothing of the run |
| `ScanResume.GraphNeverDrifts` | vvaharness/orchestrator/scan.py:252-391 | once step 1 stored a graph with a node every later step stores the same snapshot |
| `ScanResume.StaleBeforeReset` | vvaharness/orchestrator/scan.py:114-128 | cut off before the reset, all of an earlier scan can still be loaded |
| `ScanResume.ContextRestsOnSeed` | vvaharness/orchestrator/scan.py:225-290 | the contexts of an undisturbed scan: what preprocessing makes of the seed, with the application and the threat model put in, and nothing but the graph changed from then on |
| `ScanResume.LatestIsPutBack` | vvaharness/orchestrator/scan.py:225-358 | the calls, sites and spans in each context are those loaded from the last earlier step that stored a graph |
| `ScanResume.VerdictsRestOnFindings` | vvaharness/orchestrator/scan.py:291-384 | its findings are those of the deep dive over the manifest; verified are those that prefiltering kept, and grouped are the verified ones |
| `ScanResume.ReportRestsOnVerdicts` | vvaharness/orchestrator/scan.py:385-423 | its report is that of the chain over the grouped findings, enriched |
| `ScanResume.OnlyThreatsAreLeftOut` | vvaharness/orchestrator/scan.py:236-423 | with no checkpoint too large or refused by its schema, a step with nothing left to do can be loaded, unless it is a threat model that was not made |
| `Remediation.IdentityIsInjective` | vvaharness/remediation_agent/runner.py:48-65 | with NUL-free titles and files two findings have one identity if and only if number, title, file and body agree |
| `Remediation.SharedIff` | vvaharness/remediation_agent/runner.py:48-65 | a finding shares its identity with one of other content if and only if its title, file or body holds a NUL |
| `Remediation.NulMovesTheBorder` | vvaharness/remediation_agent/runner.py:61-64 | two different findings with one identity |
| `Remediation.Runner.RemediateOne` | vvaharness/remediation_agent/runner.py:68-112 | skips, or hands over and records, one finding; its checkpoint is bound to its identity |
| `Remediation.SkippedWasRemediated` | vvaharness/remediation_agent/runner.py:88-93 | resume skips only a finding remediated before under its own identity |
| `Remediation.Runner.ProcessFindings` | vvaharness/remediation_agent/runner.py:115-144 | the loop computes the checkpoints, the finished findings and the exit code; exit 0 only if every listed finding was remediated under its own identity now or earlier |
| `Remediation.ExitZeroIff` | vvaharness/remediation_agent/runner.py:115-144 | exit 0 if and only if every finding was skipped under its own identity or finished by the agent |
| `Remediation.ExitZeroMeansRemediated` | vvaharness/remediation_agent/runner.py:115-144 | then every one of them is remediated under its own identity |
| `Remediation.NewlyDone` | vvaharness/remediation_agent/runner.py:68-112 | what a run adds to the finished findings was listed, not skipped, and finished by the agent |
| `Remediation.RunAll` | vvaharness/remediation_agent/runner.py:115-144 | any sequence of runs, resets included, leaves what the runs in turn leave, and exits as they do |
| `Remediation.ZeroMeansAllRemediated` | vvaharness/remediation_agent/runner.py:115-144 | a run among them that exits 0 lists only findings remediated under their own identity by then, however they were reordered or edited |
| `Remediation.DoneByThen` | vvaharness/remediation_agent/runner.py:115-144 | every finding remediated was listed by some run and finished by the agent |
| `Remediation.RemediatedItself` | vvaharness/remediation_agent/runner.py:48-65 | with NUL-free names the finding remediated is this very one |
| `ResumedRuns.FinishedIsSkipped` | vvaharness/remediation_agent/runner.py:68-112 | over any passes: a finding finished by the agent, its record stored, is skipped whenever its identity comes again in a resumed run that can read the record, as long as there is no reset and no later record under its number; it counts as processed and changes nothing |
| `ResumedRuns.RecordHasSource` | vvaharness/remediation_agent/runner.py:95-112 | every record that resume would trust comes from a finding of that identity finished and stored before, with no reset since |
| `ResumedRuns.SkippedHasSource` | vvaharness/remediation_agent/runner.py:88-93 | so only after such a one does a finding count as processed though the agent fails on it |
| `BoundedBfs.BfsReaches` | scripts/inspect_chunks.py:63-79 | the search ends and finds exactly the other sinks on a path of at most max_hops calls (one call where max_hops is less) |
| `BoundedBfs.BallsArePaths` | scripts/inspect_chunks.py:63-79 | the balls the search grows are the paths within a length |
| `ContextTrim.SelectFiles` | vvaharness/models.py:774-789 | the files kept, limits below one included |
| `ContextTrim.FilesKept` | vvaharness/models.py:774-789 | for a positive limit they are distinct, from the walk, seeds first, and as many as limit and walk allow |
| `TrimmedContext.FilesInOrder` | vvaharness/models.py:774-789 | the files kept follow the order of the seeds and, beyond them, of the walk |
| `TrimmedContext.OneFileAtLeast` | vvaharness/models.py:774-789 | a limit below one keeps just the first seed that the walk found, if any |
| `ContextTrim.TrimEdges` | vvaharness/models.py:821-844 | the two lazy passes keep exactly the first max_edges of the admissible hot edges, then of the cold ones |
| `ContextTrim.EdgesKept` | vvaharness/models.py:813-844 | no edge twice, none inadmissible, none dropped below the limit, no cold edge while a hot one is dropped |
| `ContextTrim.EdgesAre` | vvaharness/models.py:821-824 | the de-duplicated edges are those of the graph but for nameless callees |
| `ContextTrim.GroupedHas` | vvaharness/models.py:826-844 | the trimmed graph holds just the kept edges |
| `TrimmedContext.TargetsFirst` | vvaharness/models.py:803-844 | an edge of the graph whose caller or callee is the file::function of a kept entry point or sink, or its bare name, and that has an end in a kept file, is kept before every kept edge that has no such end |
| `TrimmedContext.NameIsTarget` | vvaharness/models.py:803-819 | the names that make an edge hot are just those of kept entry points and sinks |
| `TrimmedContext.DroppedIff` | vvaharness/models.py:837-840 | an edge is dropped if and only if both its ends name files that are not kept |
| `TrimmedContext.EdgesInOrder` | vvaharness/models.py:821-824 | edges are listed in the order of the call graph |
| `TrimmedContext.KeptInOrder` | vvaharness/models.py:826-844 | so are the kept ones, hot among hot and cold among cold |
| `TrimmedContext.GroupedInOrder` | vvaharness/models.py:841-844 | and the callees of a caller in the trimmed graph |
| `GraphView.ReverseEdges` | vvaharness/pipeline/callgraph_consumer.py:258-267 | the loop builds the callers of every callee |
| `GraphView.ReverseIsConverse` | vvaharness/pipeline/callgraph_consumer.py:258-267 | they are the exact converse of the call graph, without repeats |
| `LineLookup.CallersInOrder` | vvaharness/pipeline/callgraph_consumer.py:258-267 | callers are listed in the order of their entries |
| `GraphView.QnodesByFile` | vvaharness/pipeline/callgraph_consumer.py:240-255 | the functions of each file, in order of appearance |
| `GraphView.FileNodesAre` | vvaharness/pipeline/callgraph_consumer.py:240-255 | they are just the names the call graph uses in that file, once each |
| `LineLookup.NodesInOrder` | vvaharness/pipeline/callgraph_consumer.py:240-255 | in the order in which the call graph first names them |
| `GraphView.BuildSpanIndex` | vvaharness/pipeline/callgraph_consumer.py:216-237 | the sorted spans of each file |
| `GraphView.QnodesAt` | vvaharness/pipeline/callgraph_consumer.py:270-303 | computes the functions at given lines from the indices |
| `GraphView.CoveredLines` | vvaharness/pipeline/callgraph_consumer.py:270-303 | the functions of overlapping spans are named once each, in the order of their spans, and a cut leaves the first ones |
| `GraphView.CoveredCount` | vvaharness/pipeline/callgraph_consumer.py:270-303 | as many as a look at every span finds, but for the cut at the limit, negative limits counting from the end |
| `GraphView.NamedAreCovered` | vvaharness/pipeline/callgraph_consumer.py:270-303 | and no other |
| `GraphView.UncoveredLines` | vvaharness/pipeline/callgraph_consumer.py:270-303 | without an overlap: the file's functions, or else on request a nearest span |
| `LineLookup.NamedAreHit` | vvaharness/pipeline/callgraph_consumer.py:216-303 | of any context: where some definition span of the file meets the lines, its second number counting when it has one and is no less than the first, and the limit lets all be named, those named are exactly the definitions that meet them |
| `LineLookup.NamedInOrder` | vvaharness/pipeline/callgraph_consumer.py:216-303 | they are named in the order of their lines and names, and a limit keeps the first |
| `LineLookup.NearestIsNamed` | vvaharness/pipeline/callgraph_consumer.py:279-303 | with none there, and no function of the file in the call graph, the nearest definition is named, the first by name of those equally near |
| `GraphView.Views.ViewOf` | vvaharness/pipeline/callgraph_consumer.py:342-357 | the view returned shows the context that has the id now, and is built once for it |
| `GraphView.Serve` | vvaharness/pipeline/callgraph_consumer.py:336-357 | over any creation, collection with id reuse, and lookup: one view for each lookup of an id in use, in order, of the context that has the id then |
| `Backfill.BackfillLines` | scripts/backfill_cwe.py:122-196 | the loop computes the rewritten report, and counts the findings, the lines inserted and the findings that had a CWE line |
| `Backfill.BlockIsUnique` | scripts/backfill_cwe.py:138-172 | a heading has one header block |
| `Backfill.BlockIs` | scripts/backfill_cwe.py:138-164 | it holds no heading nor other stop, nor a blank line below a Class line but its last, and ends there or at the next heading, stop or end |
| `Backfill.FirstAreNoted` | scripts/backfill_cwe.py:146-159 | the CWE line and the Class line that count are the first in it |
| `Backfill.FilledIsIdempotent` | scripts/backfill_cwe.py:122-196 | a second run yields the same lines |
| `Backfill.BackfillTwice` | scripts/backfill_cwe.py:122-206 | a second run over the lines of the first adds no line |
| `Backfill.BlockIsConserved` | scripts/backfill_cwe.py:172-196 | in each finding at most one Class line is rewritten and one CWE line rewritten or inserted |
| `Backfill.FilledIsConserved` | scripts/backfill_cwe.py:122-196 | every other original line is kept in order |
| `Backfill.FilledKeepsPlainLines` | scripts/backfill_cwe.py:122-196 | the lines that are neither Class nor CWE lines are the same ones, and there is at most one new line a finding on the whole |
| `Backfill.FindingsAreApart` | scripts/backfill_cwe.py:138-196 | each finding, from its heading to the next, is rewritten by itself whatever stands around it, keeps its plain lines, and gains at most one line |
| `Backfill.CweIsKept` | scripts/backfill_cwe.py:138-175 | a finding with a CWE line keeps its CWE: that line and the Class line are written by it |
| `Backfill.CweIsDerived` | scripts/backfill_cwe.py:168-181 | one without, and with a first Class line of category c, gains below that line the line of what its title and c derive, and the Class line is written by it |
| `Backfill.CweIsDerivedFromTitle` | scripts/backfill_cwe.py:168-190 | one with neither gains, at the end of its block, the line of what its title derives |
| `Backfill.NoCweNoChange` | scripts/backfill_cwe.py:168-193 | one for which nothing is derived stays as it is |
| `Backfill.FileIsIdempotent` | scripts/backfill_cwe.py:122-206 | the file itself is unchanged by a second run, empty files and odd line breaks included |
| `Backfill.FileIsFilled` | scripts/backfill_cwe.py:122-206 | it holds the rewritten lines of the file there was |
| `Enrich.AnnotateCvss` | vvaharness/report/enrich.py:588-648 | the pass with its lookahead computes the rated lines and whether it changed any |
| `Enrich.AnnotateOffensive` | vvaharness/report/enrich.py:651-702 | so does the second pass |
| `Enrich.RatedIsSettled` | vvaharness/report/enrich.py:588-648 | a rated report needs no more rating |
| `Enrich.RankedIsServed` | vvaharness/report/enrich.py:651-702 | a ranked report needs no more ranking, whatever is parsed from it next time, as long as no finding without a priority gains one |
| `Enrich.RankingKeepsSettled` | vvaharness/report/enrich.py:651-702 | ranking never parts a CVSS line from its severity |
| `Enrich.EnrichFile` | vvaharness/report/enrich.py:1058-1092 | both passes over the file, each written only when it changed a line |
| `Enrich.EnrichedIsIdempotent` | vvaharness/report/enrich.py:1058-1092 | enriching twice leaves the file as enriching once |
| `Enrich.RatedIsReworded` | vvaharness/report/enrich.py:588-648 | no line is lost and none moved: CVSS lines gain missing scores, severities are put in below a blank line, and only a severity with the blank lines above it goes, where another replaces it |
| `EnrichedReport.RatedTells` | vvaharness/report/enrich.py:588-648 | every CVSS line of a rated report shows a score, if its vector has one, and has below it the severity of that vector, bold as the line is |
| `EnrichedReport.SettledIff` | vvaharness/report/enrich.py:588-648 | the first pass reports no change if and only if every CVSS line among the findings tells all that already |
| `EnrichedReport.FileTells` | vvaharness/report/enrich.py:1058-1092 | so every such line of the enriched file does |
| `EnrichedReport.FileIsRated` | vvaharness/report/enrich.py:588-648 | a file in which every one does is left as it is by the first pass, any other is rated as a whole |
| `EnrichedReport.ScoreIsAdded` | vvaharness/report/enrich.py:616-621 | a line without a score gains that of its vector |
| `EnrichedReport.NothingElseIsScored` | vvaharness/report/enrich.py:600-621 | and no other line does |
| `Enrich.RankedIsGrown` | vvaharness/report/enrich.py:651-702 | the lines stay as they are, in order, with nothing done but priorities put in, each below a blank line |
| `EnrichedReport.FindingIsRanked` | vvaharness/report/enrich.py:662-697 | of any report: what the k-th heading governs gains, below its first place for it, a blank line and the line of the priority and reason of the k-th finding, bold as the line above, unless that finding has no priority or such a line is there; all else stays, whatever comes before and after |
| `EnrichedReport.FindingIsLeft` | vvaharness/report/enrich.py:662-697 | a finding without a place for it is left as it is |
| `EnrichedReport.NothingBeforeHeadings` | vvaharness/report/enrich.py:662-669 | before the first heading nothing is put in |
| `EnrichedReport.ServedIff` | vvaharness/report/enrich.py:657-702 | the pass reports a change if and only if it makes one |
| `EnrichedReport.FileIsRanked` | vvaharness/report/enrich.py:1058-1092 | the enriched file holds what ranking makes of the rated file and of the findings read from that |
| `SdkRetry.Client.Prompt` | vvaharness/backends/sdk.py:218-350 | a prompt comes to what its run against the server says, is never exhausted, and leaves what it learned |
| `SdkRetry.OnePrompt` | vvaharness/backends/sdk.py:218-350 | against any server at most four requests and two minutes of waiting |
| `SdkRetry.Client.Send` | vvaharness/backends/sdk.py:276-350 | the loop and what it learns about the model |
| `SdkRetry.RunIsShort` | vvaharness/backends/sdk.py:276-350 | from any point at most the attempts left and one for each droppable parameter; the exhausted branch is not reached |
| `SdkRetry.FourAreSent` | vvaharness/backends/sdk.py:276-330 | four requests are reached |
| `SdkRetry.FailuresPass` | vvaharness/backends/sdk.py:276-333 | up to two failures that may pass, a status worth a retry or no connection, and then an answer: the same request each time, a minute between, and the answer is the result |
| `SdkRetry.ThirdFailureIsReported` | vvaharness/backends/sdk.py:314-346 | a third such failure is reported |
| `SdkRetry.OtherErrorIsReported` | vvaharness/backends/sdk.py:291-327 | any other error is reported at once |
| `SdkRetry.RefusedIsLeftOut` | vvaharness/backends/sdk.py:291-313 | a refused temperature or thinking is left out of the next request, with no wait, and remembered |
| `SdkRetry.AskedIsSent` | vvaharness/backends/sdk.py:218-275 | what is asked for is sent, unless the model is known to refuse it: thinking, or else a temperature |
| `SdkRetry.PromptAll` | vvaharness/backends/sdk.py:184-256 | each of several prompts runs as its server and the refusals met before have it |
| `SdkRetry.NoSecondRefusal` | vvaharness/backends/sdk.py:184-256 | over any prompts no model refuses the same parameter twice: it is not sent again |
| `OaiRetry.Client.Prompt` | vvaharness/backends/oai.py:238-373 | against any server at most six requests and two minutes of waiting |
| `RetryLoop.RunBounds` | vvaharness/backends/oai.py:280-365 | from any point at most what is left of six requests, and a wait for each further attempt there was |
| `RetryLoop.RunSteps` | vvaharness/backends/oai.py:280-335 | of both clients: each request is the one before it or that mended as the server asked, which is noted |
| `RetryLoop.RunEnds` | vvaharness/backends/sdk.py:276-350 | of both clients: what is reported is the last reply; a passing failure only with no request left |
| `RetryLoop.PassingThenAnswer` | vvaharness/backends/oai.py:280-365 | of both clients, from any point: passing failures with an attempt left after them cost a minute each and nothing else |
| `RetryLoop.ExhaustedIff` | vvaharness/backends/oai.py:365-373 | the exhausted branch is reached if and only if the sixth request has a parameter refused |
| `OaiRetry.PingPongExhausts` | vvaharness/backends/oai.py:313-334 | a server that names one limit always sees both names in turn and exhausts the prompt |
| `OaiRetry.NoSecondRefusal` | vvaharness/backends/oai.py:238-334 | over any prompts a model that refused a temperature is sent none again, and one that wanted the old name of the token limit is sent that first |
| `OaiRetry.AskedIsSent` | vvaharness/backends/oai.py:256-262 | before any refusal a temperature asked for is sent, and the limit by its new name |
| `OaiRetry.FailuresPass` | vvaharness/backends/oai.py:280-365 | up to two failures that may pass, and then an answer: the same request each time, a minute between, and the answer is the result |
| `OaiRetry.ThirdFailureIsReported` | vvaharness/backends/oai.py:335-365 | a third such failure is reported |
| `OaiRetry.OtherErrorIsReported` | vvaharness/backends/oai.py:296-365 | any other error is reported at once |
| `OaiRetry.RefusedIsMended` | vvaharness/backends/oai.py:296-334 | a refused temperature is left out of the next request, with no wait, and remembered |
| `OaiRetry.OtherNameIsTried` | vvaharness/backends/oai.py:313-334 | a refused name of the token limit is replaced by the other one, with no wait |
| `OaiAgentic.Chat.ShrinkHistory` | vvaharness/backends/oai.py:450-462 | the oldest oversized tool result is evicted, if there is one |
| `OaiAgentic.EvictedStays` | vvaharness/backends/oai.py:450-462 | an evicted result is never oversized again |
| `OaiAgentic.TrimmedAgain` | vvaharness/backends/oai.py:450-462 | a further eviction is at a new place |
| `OaiAgentic.TrimmedKeeps` | vvaharness/backends/oai.py:450-462 | prompts stay, and every tool result keeps its first 800 characters |
| `OaiAgentic.Chat.Ask` | vvaharness/backends/oai.py:505-555 | the inner loop computes what a turn comes to |
| `OaiAgentic.TurnEnds` | vvaharness/backends/oai.py:505-555 | a turn ends after at most 21 requests and a renaming with the answer to its last request: a passing failure only after four retries, an overflow only with nothing left to evict or after 16 evictions |
| `OaiAgentic.Chat.Run` | vvaharness/backends/oai.py:500-612 | the loop of turns computes what the conversation comes to |
| `OaiAgentic.ConversationEnds` | vvaharness/backends/oai.py:500-612 | it ends within 21 requests a turn and two more, with the answer to its last request |
| `ToolTurns.ToolsAreAnswered` | vvaharness/backends/oai.py:557-587 | a response with calls c0..cn adds its content and then, in order, tool messages, each the text of that call's execution or, when that is longer, its first 48000 characters and more |
| `ToolTurns.TextIsReturned` | vvaharness/backends/oai.py:557-571 | a response without calls ends the conversation with its text |
| `ToolTurns.TextIsStripped` | vvaharness/backends/oai.py:568-571 | which is all of it but the blanks around it |
| `ToolTurns.LastIsAsked` | vvaharness/backends/oai.py:589-612 | with the turns used up one more request of the user is added and sent once, and its text is the result |
| `ToolTurns.PassingThenAnswer` | vvaharness/backends/oai.py:531-551 | up to four passing failures in a turn are waited out |
| `ToolTurns.OverflowThenAnswer` | vvaharness/backends/oai.py:518-527 | after an overflow the oldest large tool result is cut to a stub and the request sent again |
| `ToolTurns.RenamedThenAnswer` | vvaharness/backends/oai.py:512-517 | a server that refuses the new name of the token limit is asked by the old one, from then on |
| `Cvss.RoundUpIsLeastTenth` | vvaharness/report/enrich.py:371-375 | the least tenth not below the argument rounded to five decimals |
| `Cvss.RoundUpIsMonotone` | vvaharness/report/enrich.py:371-375 | rounding up is monotone |
| `Cvss.RoundUpFixesTenths` | vvaharness/report/enrich.py:371-375 | and fixes tenths |
| `Cvss.RoundingsDiffer` | vvaharness/report/cvss.py:38-40 | the truncating form agrees but where a whole tenth is just exceeded and rounding goes up, where it is one tenth lower |
| `Cvss.RoundingsDifferHere` | vvaharness/report/cvss.py:38-40 | a number they differ on, which no vector comes to |
| `Cvss.ModulesAgree` | vvaharness/report/cvss.py:43-68 | yet the two modules give every vector the same base score |
| `Cvss.BaseScoreInRange` | vvaharness/report/enrich.py:387-412 | a base score is a number of tenths from 0 to 10 |
| `Cvss.BaseScoreIsMonotone` | vvaharness/report/enrich.py:387-412 | with unchanged scope a vector no better in any metric scores no less |
| `Cvss.EnvironmentalIsBounded` | vvaharness/report/enrich.py:440-472 | the environmental score never exceeds the modified base score, nor 9.0, which only 10.0 gives |
| `Cvss.OnlyTheWorstIsCritical` | vvaharness/report/enrich.py:422-472 | only a modified base score of 10.0 is rated critical |
| `Cvss.EnvironmentalIsMonotone` | vvaharness/report/enrich.py:170-180 | with unchanged scope a safer application never scores higher |
| `KnownScores.ExploitabilityMatters` | vvaharness/report/enrich.py:387-412 | what each metric of exploitability takes off the worst unchanged vector |
| `KnownScores.ImpactMatters` | vvaharness/report/enrich.py:387-412 | and each of impact |
| `KnownScores.ScopeMatters` | vvaharness/report/enrich.py:387-412 | scores of vectors with changed scope |
| `KnownScores.ApplicationMatters` | vvaharness/report/enrich.py:440-472 | what facing outwards and handling personal data do to the environmental score |
| `KnownScores.CardholderScopeMatters` | vvaharness/report/enrich.py:170-180 | what cardholder scope does to it |
| `KnownScores.AccountNumbersMatter` | vvaharness/report/enrich.py:170-180 | and handling account numbers |
| `KnownScores.ModifiedScopeMatters` | vvaharness/report/enrich.py:440-472 | with changed scope too |
| `KnownScores.LossIsCapped` | vvaharness/report/enrich.py:463-471 | the modified loss is cut at 0.915, with either scope |
| `KnownScores.RatingsAtTheBounds` | vvaharness/report/enrich.py:422-431 | the ratings on both sides of each bound |

## Left out

- JSON parsing itself: `loads` is any function, which may fail to decode or raise another error.
- The opening-fence word test uses a parameter for what a word character is.
- Kills are taken to succeed, `reset_abort` to run only when no worker is live, and KeyboardInterrupt in a wait is not modelled.
- Of the streaming runner only the steps that bear on abort are modelled, not its readers and trace.
- What makes a CLI result transient or pending is read from text by regular expressions; a run's end carries the answer.
- SQLite, its migrations, timestamps and pruning: tables are maps and sets with cascades, each operation one transaction.
- Decimal digits and blanks are those of Unicode 14.
- SHA-256 is free of collisions, in graph ids and in finding identities.
- `ScanResume.Scan.ScanRepo`: stages are deterministic functions; tokens, times, the step 1 overlay file, legacy checkpoint shapes and steps 9 to 11 are not modelled. `--stop-after` is a cut before the next write.
- `Remediation.IdentityIsInjective`: texts are taken as encodable, so that replacing lone surrogates does not arise.
- `ContextTrim.SelectFiles`: how seed paths are collected and normalised is not modelled; seeds are any list of paths.
- The rest of the context view (modules, spans, notes, taint paths) is filtering by the kept sets.
- `GraphView.ReverseEdges`: the set of callers already seen beside each caller list is not kept apart from it.
- `GraphView.Views.ViewOf`: the graph of a context does not change while a view of it is cached.
- `Backfill.BackfillLines`: regular expressions are a line's kind, and the lines written have the kinds they are meant to have.
- `Enrich.AnnotateCvss`: likewise.
- `Backfill.FileIsIdempotent`: the backup copy and the dry run are not modelled.
- `Enrich.EnrichFile`: how a finding is parsed, and its priority computed, is any function of the lines with one finding for each heading before the boundary; SARIF output is not modelled.
- `SdkRetry.Client.Prompt`: requests keep only the parameters that can be dropped; usage accounting is not modelled.
- `OaiRetry.Client.Prompt`: likewise.
- `OaiAgentic.Chat.Run`: messages carry role and content only, tools are any function, and waits are not added up.
- Parsing CVSS vectors: a vector has all eight metrics with legal values.
- Cvss scores are exact reals; floating-point error is not modelled, nor monotonicity for changed scope, which does not hold near the maximum.
- Pipeline stages, the call-graph engine, redaction, rendering, configuration, batch input and the codex backend.
