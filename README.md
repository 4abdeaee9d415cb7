# agentfs-claude, modelled in Dafny

agentfs-claude runs a coding agent against a project through a virtual file
system. The project tree is meant to be copied into an AgentFS store at
start-up, when no store "fs.db" exists yet. As written, `main` opens (and so
creates) "fs.db" before testing for it, so the copy never happens; the model
shows both the sequence as written and the corrected one (see Findings). The
agent's native file tools (Read, Write, Edit, Glob) are denied. The agent
works through five tools of an in-process "filesystem" server instead:
`read_file`, `write_file`, `list_files`, `edit_file` and `file_exists`.
After a virtual write or edit, the operator is asked whether to replay it on
the real disk, but only when the path and the content (for an edit: the path,
the old string and the new string) are non-empty and "." followed by the
piece after the path's first "." is not a document format (".pdf", ".docx",
".doc", ".pptx", ".xlsx"). So a write to "report.pdf", an empty write and an
edit with an empty new string are never offered. A small event workflow sequences the session:
start (ingest), files registered, request prompt, prompt, stop.

The model has one module per part of the program:

- `Strings` (`strings.dfy`) holds the JavaScript string operations the code relies on:
  - `includes` and `indexOf`;
  - `replace` with a string pattern, which replaces only the first occurrence;
  - one-character `split` and `join`;
  - `trim`;
  - ASCII `toLowerCase`.
- `Paths` (`paths.dfy`) covers path handling:
  - the leading "/" the adapter adds;
  - `dirname`, `basename` and `join` on "/"-separated paths;
  - how `recordFiles` rewrites paths;
  - `isDir`;
  - the two extension tests: the last dot-piece in ingestion, and dot-piece 1 in the replay hooks.
- `Store` and `StoreFacts` (`store.dfy`) model the AgentFS store as a value:
  - a map from path to content, plus the paths in order of creation;
  - `readdir` derived from the keys;
  - `readFile` and `fileExists`;
  - the `listFiles` work-list listing as a terminating function, with its properties.
- `Ingest` (`ingest.dfy`) is `getFilesInDir` over a real directory tree given as a datatype. It has the ignore rule, the classification rule and the error handling, written as a specification function plus the imperative walk proved equal to it.
- `FileSystem` (`filesystem.dfy`) is the adapter: class `AgentFs` with methods `WriteFile`, `EditFile`, `ListFiles` and `RecordFiles`. Each method is proved against the `Store` functions.
- `Mcp` (`mcp.dfy`) has the default store path, the result envelope each tool builds and the five-tool registry.
- `Options` (`options.dfy`) covers the permission layer:
  - the deny hook;
  - the tests that decide whether a replay is offered;
  - the answer gate;
  - the two replay hooks, as methods of a real-disk class `RealFs`;
  - the hooks table;
  - the shared `QueryOptions` object.
- `Claude` (`claude.dfy`) is the `Agent` constructor. It mutates the options object it is given, which is shared.
- `Workflow` (`workflow.dfy`) holds the session:
  - the events and the handler transition function `Next`;
  - the traces a stream shows;
  - class `Session`, whose `Handle` and `RunUntil` are proved against those functions;
  - the `main` sequence, as written and corrected (see Findings).

I/O is replaced by parameters:
- Store failures are a `fault` flag or a set of failing call numbers.
- MIME sniffing is a predicate.
- The document parser is a function from a path to the text it extracted; it never fails, and on an error it yields the text gathered so far, often "".
- Operator answers are strings.
- An error thrown by the agent run is an optional, already stringified message.

The code at this revision opens a single store and runs a single agent.
There is no mirror store and no choice between agents, so neither is modelled.

## Model

| member | source | states |
|---|---|---|
| Strings.IndexOf | src/filesystem.ts:54 | the first occurrence of the pattern, or none; no earlier index matches; an empty pattern is found at 0 |
| Strings.ContainedChars | src/filesystem.ts:54 | a pattern that occurs in a text has every one of its characters in that text |
| Strings.ReplaceFirst | src/filesystem.ts:156 | with no occurrence the text is unchanged; otherwise exactly the first occurrence is cut out and the replacement put in its place |
| Strings.FirstOccurrence | src/filesystem.ts:156 | only one index can be the first occurrence, so the replaced position is determined |
| Strings.ReplaceAbsent | src/filesystem.ts:156 | an edit whose old string is absent leaves the content as it was |
| Strings.ReplaceEmptyPattern | src/filesystem.ts:156 | an empty old string matches at index 0, so the new string is prepended |
| Strings.ReplaceOnlyFirst | src/filesystem.ts:156 | later occurrences of the pattern are left alone |
| Strings.ReplaceWhole | src/filesystem.test.ts:60-70 | replacing the whole content by a new string gives that new string, as the edit test expects |
| Strings.IndexOfChar | src/filesystem.ts:188 | the first index of the separator: it holds the separator and nothing before it does |
| Strings.Split | src/filesystem.ts:188 | at least one piece, and no piece holds the separator |
| Strings.SplitAt | src/filesystem.ts:188 | splitting at the first separator gives the piece before it followed by the split of the rest |
| Strings.JoinSplit | src/filesystem.ts:188 | joining the pieces of a split with the separator gives back the text |
| Strings.SplitJoin | src/options.ts:117 | splitting separator-free pieces joined by the separator gives back the pieces |
| Strings.SplitSingleIff | src/filesystem.ts:187-190 | a split has one piece exactly when the separator does not occur |
| Strings.TrimStart | src/filesystem.ts:208 | the result is a suffix; everything removed is whitespace; the result does not start with whitespace |
| Strings.TrimEnd | src/filesystem.ts:208 | the result is a prefix; everything removed is whitespace; the result does not end with whitespace |
| Strings.ToLower | src/options.ts:60 | same length; each character lowered on its own |
| Paths.Normalize | src/filesystem.ts:132-134 | the adapter's path always starts with "/"; a rooted path is kept; any other path gets "/" in front |
| Paths.NormalizeRootedForm | src/filesystem.ts:132-134 | normalising twice changes nothing, and writing "p" is writing "/p" |
| Paths.LastIndexOfChar | src/filesystem.ts:173 | the last "/" of a path: no "/" follows it |
| Paths.Basename | src/filesystem.ts:176 | a base name holds no "/" |
| Paths.Join | src/filesystem.ts:202 | a joined path is longer than its directory when the name is not empty, and no longer than directory, "/" and name |
| Paths.RecordPath | src/filesystem.ts:95-104 | a rooted path is stored as it is; a leading "./" becomes "/"; any other path gets "/" in front; so every stored path starts with "/" |
| Paths.IsDirIff | src/filesystem.ts:187-190 | `isDir` holds exactly for names without a "." |
| Paths.LastExtension | src/filesystem.ts:66 | the ingestion extension is "." followed by the whole path when it has no dot; otherwise it is the path's own suffix that starts at a "." and holds no other ".", i.e. the text from the last "." on |
| Paths.SecondPieceExtension | src/options.ts:54 | a path without a dot yields ".undefined" |
| Paths.SecondPiece | src/options.ts:54 | a path a.b followed by nothing or by "."-led text (a, b dot-free) yields ".b": the piece after the first dot, whatever follows |
| Strings.SplitLast | src/filesystem.ts:66 | the last piece of a split is a suffix of the text, preceded by the separator when the text holds one |
| Paths.FirstSegment | src/filesystem.ts:202 | the first segment of a relative path is a "/"-free prefix of it |
| Paths.FirstSegmentIs | src/filesystem.ts:202 | a path has first segment b exactly when it is b or starts with b + "/" |
| Store.Children | src/filesystem.ts:174 | the names a directory lists are distinct and no more numerous than the stored paths |
| Store.ChildrenIff | src/filesystem.ts:174 | a name is listed under a directory exactly when some stored path passes through it there |
| Store.ReadDir | src/filesystem.ts:196 | `readdir` succeeds exactly for the root and for directories when the store does not fail, and then gives their children |
| Store.Store.Put | src/filesystem.ts:136 | a write sets that one key, keeps the store consistent (each stored path listed once), appends the path to the end of the creation order when it is new and leaves that order as it was otherwise |
| Store.Store.ReadFile | src/filesystem.ts:114-125 | a read yields the stored content, or nothing when the path is absent or the store fails |
| Store.MaxLen | src/filesystem.ts:198-203 | every stored path is at most this long; the bound behind the work list's termination |
| Store.JoinAll | src/filesystem.ts:201-203 | the names pushed for a directory are its children joined to its name, in order |
| Store.TopLevelOk | src/filesystem.ts:196 | the root's children are well-formed entries for the work list |
| Store.KidsShape | src/filesystem.ts:200-203 | each pushed child is longer than its directory and shorter than the longest stored path |
| Store.KidsWeight | src/filesystem.ts:200-203 | the children of a directory entry weigh less than the entry itself |
| Store.ExpandDecreases | src/filesystem.ts:198-203 | replacing a directory entry by its children strictly lowers the weight of the work list, so the loop that pushes onto the array it iterates ends |
| Store.WeightCons | src/filesystem.ts:198-207 | the work list's weight is its head's weight plus its tail's |
| Store.WeightAppend | src/filesystem.ts:201-203 | appending to the work list adds weights |
| Store.WeightBound | src/filesystem.ts:201-203 | a list of children each bounded by p weighs at most their number times p |
| Store.DeeperWeighsLess | src/filesystem.ts:200-203 | a strictly longer entry weighs at most one power less |
| Store.ItemWeightSplit | src/filesystem.ts:200-203 | an entry's weight is one factor above the next length's |
| StoreFacts.ListingEmptyIff | src/filesystem.ts:192-213 | (about `Store.Listing`) `listFiles` returns "" exactly when the root `readdir` fails |
| StoreFacts.ListFromKeepsHeader | src/filesystem.ts:197-211 | (about `Store.ListFrom`) once the header is written, every later outcome, trimmed or not, starts with "AVAILABLE FILES:" |
| StoreFacts.TrimKeepsPrefix | src/filesystem.ts:208 | trimming keeps any prefix that starts and ends with a non-space |
| StoreFacts.TrimKeepsHeader | src/filesystem.ts:208 | trimming does not eat into the header |
| StoreFacts.ListFromFileStep | src/filesystem.ts:204-206 | a non-directory entry is printed followed by ", " and the walk goes on |
| StoreFacts.ListFromDirStep | src/filesystem.ts:199-203 | (about `Store.ListFrom`) a directory entry whose `readdir` fails ends the listing with the text so far, untrimmed; otherwise its children join the end of the work list and the walk goes on with less weight |
| StoreFacts.ListFromFilesRest | src/filesystem.ts:198-207 | a work list of files only is printed in order |
| StoreFacts.ListFromFiles | src/filesystem.ts:198-208 | (about `Store.ListFrom`) a work list of files only gives the trimmed text of all of them |
| StoreFacts.RenderedCons | src/filesystem.ts:205 | printing one more name extends the rendered text |
| StoreFacts.RenderedOne | src/filesystem.ts:205 | one name renders as the name followed by ", " |
| StoreFacts.TrimTrailingSpace | src/filesystem.ts:208 | the final trim removes the last ", "'s space, keeping the comma |
| StoreFacts.OneNameChildren | src/filesystem.ts:196 | the root of a store holding one top-level path lists exactly that name |
| StoreFacts.OneFileListing | src/filesystem.ts:192-213 | a store holding one top-level file with a "." lists the header and that name, trimmed |
| StoreFacts.SingleFileText | src/filesystem.test.ts:46-50 | the header and one rendered name trim to the expected text |
| StoreFacts.SingleFileListing | src/filesystem.test.ts:46-50 | a store holding only "/test.md" lists as "AVAILABLE FILES:\ntest.md," |
| StoreFacts.ListFromStalls | src/filesystem.ts:199-211 | a name without a "." that is a file, not a directory, makes the listing end untrimmed |
| StoreFacts.ExtensionlessFileStalls | src/filesystem.ts:187-211 | a stored top-level file without a "." (such as "/Makefile") makes `listFiles` return the untrimmed partial text |
| StoreFacts.ParentSplit | src/filesystem.ts:173-176 | (about `Paths.Dirname`) a normalised path is its parent's prefix followed by its non-empty base name |
| StoreFacts.ChildKeyIff | src/filesystem.ts:174-176 | a stored path names child b of a directory exactly when it is that child or lies below it |
| StoreFacts.BasenameListedIff | src/filesystem.ts:174-176 | the base name is listed under the parent exactly when the path or a path below it is stored |
| StoreFacts.ParentListed | src/filesystem.ts:173-174 | a stored path at or below p makes p's parent listable |
| StoreFacts.NoChildIsPath | src/filesystem.ts:176 | the full-path comparison never succeeds, since listed names carry no "/" |
| StoreFacts.FileExistsIff | src/filesystem.ts:165-185 | (about `Store.Store.FileExists`) `fileExists` is false whenever the store fails; otherwise it is true exactly when the normalised path is stored as a file or as a directory of stored files |
| Ingest.EntryPath | src/filesystem.ts:51 | a start directory "./" disappears from joined paths; another directory is joined with "/" |
| Ingest.Classify | src/filesystem.ts:65-76 | text exactly when the MIME test passes or the last extension is a code extension; parsed exactly when not text and the extension is a document format; dropped otherwise |
| Ingest.DefaultWalkAdmitted | src/filesystem.ts:52-76 | every file collected with the default list is unskipped and of a kept kind |
| Ingest.EntriesAdmitted | src/filesystem.ts:48-81 | (about `Ingest.FilesInDir`) soundness: every file collected comes from one entry such that neither it nor any entry before it is a text file whose read fails (so nothing after a failed read is collected, and a collected text file was readable); that entry's path passes the caller's list; a file entry gives its own path with its read text or its parsed text, and is not dropped; a subdirectory gives a file of its own walk that the default list admits |
| Ingest.TopLevelFileAdmitted | src/filesystem.ts:53-60 | a file collected from a file entry of this level passes the caller's own ignore list, not merely the default one |
| Ingest.FilesInDirComplete | src/filesystem.ts:48-81 | (about `Ingest.FilesInDir`) completeness: in a readable directory, when no entry up to this one is a text file whose read fails, an unskipped, kept file is collected with its content (a failed parse included, with the parser's text), and so is every file of an unskipped subdirectory's walk |
| Ingest.ContributionCollected | src/filesystem.ts:50-78 | what one entry adds stays in the result of every earlier start with no failed read in between |
| Ingest.SubstringIgnore | src/filesystem.ts:54 | ignoring is a substring test: "distance.ts" is skipped because of "dist" |
| Ingest.NestedDirKept | src/filesystem.ts:54 | "docs" survives the ignore list ["notes"] |
| Ingest.NestedFileKept | src/filesystem.ts:54 | "docs/notes.md" survives the default ignore list |
| Ingest.DefaultIgnoreMissing | src/filesystem.ts:42 | a path without '_', 'i' and 'p' contains none of the default ignore entries |
| Ingest.NestedIgnoresDefaultOnly | src/filesystem.ts:62 | subdirectories are walked with the default list, so a top-level ignore of "notes" still collects "docs/notes.md" |
| Ingest.IsSkipped | src/filesystem.ts:52-57 | the inner loop sets the flag exactly when some ignore entry occurs in the path |
| Ingest.VisitEntry | src/filesystem.ts:51-77 | one entry's contribution: kept, skipped, recursed into or dropped; the level stops exactly when the entry is an unskipped text file whose read fails; a document is always kept with the parser's text |
| Ingest.GetFilesInDir | src/filesystem.ts:40-83 | the walk returns exactly the files `FilesInDir` lists, in order: nothing for an unreadable directory, the files before the first failed text read otherwise; `EntriesAdmitted` and `FilesInDirComplete` say which files those are |
| FileSystem.FirstFault | src/filesystem.ts:94-110 | the index of the first failing write, or the count when none fails |
| FileSystem.StoreAll | src/filesystem.ts:94-106 | storing collected files keeps the store consistent and every earlier key, and only adds paths that start with "/" |
| FileSystem.StoreAllStores | src/filesystem.ts:94-106 | a collected file not overwritten later is stored at its rewritten path with its content |
| FileSystem.StoreAllKeeps | src/filesystem.ts:94-106 | a key no collected file rewrites to keeps its old content |
| FileSystem.StoreAllStep | src/filesystem.ts:94-106 | storing one more file is one more write |
| FileSystem.StoreAllSnoc | src/filesystem.ts:94-106 | storing a list and then one file is storing the longer list |
| FileSystem.AgentFs.constructor | src/mcp.ts:49-59 | a freshly created store is empty |
| FileSystem.AgentFs.Put | src/filesystem.ts:136 | the engine's write at exactly the given key |
| FileSystem.AgentFs.WriteFile | src/filesystem.ts:127-142 | true and a write at the normalised path when the store works; false and no change when it fails |
| FileSystem.AgentFs.EditFile | src/filesystem.ts:144-163 | null exactly when the read fails or the normalised path is absent; otherwise the first-occurrence replacement, which is stored unless the write fails, in which case it is still returned and nothing changes |
| FileSystem.AgentFs.ListFiles | src/filesystem.ts:192-213 | the work-list loop returns exactly the listing function's text |
| FileSystem.AgentFs.PushJoined | src/filesystem.ts:201-203 | the inner loop appends the joined children in order |
| FileSystem.AgentFs.RecordFiles | src/filesystem.ts:85-112 | true exactly when no write fails; the store then holds the collected files up to the first failing write, the earlier writes staying |
| FileSystem.AgentFs.RewritePath | src/filesystem.ts:95-104 | the in-place rewrite of `file.filePath` is `RecordPath` |
| FileSystem.SuffixAppend | src/filesystem.ts:202 | pushing onto the iterated array extends the part still to visit |
| FileSystem.WriteReadRoundTrip | src/filesystem.ts:114-142 | after a write, reading the rooted path gives the written content; every other path reads as before |
| FileSystem.ExistsAfterWrite | src/filesystem.ts:127-185 | after a write, `fileExists` on the same path is true |
| FileSystem.SingleFilePresent | src/filesystem.test.ts:52-58 | with "/test.md" stored, `fileExists("/test.md")` is true |
| FileSystem.SingleFileAbsent | src/filesystem.test.ts:52-58 | with "/test.md" stored, `fileExists("/tests.md")` is false |
| FileSystem.RepositoryTests | src/filesystem.test.ts:27-70 | the repository's store tests in sequence: write then read, the listing, the existence checks and the edit, each with the expected result |
| Mcp.StorePath | src/mcp.ts:49-59 | a missing or empty path opens "fs.db"; any other path is used as given |
| Mcp.ReadResult | src/mcp.ts:61-79 | one text block; an error exactly when the read gave nothing; otherwise the content itself |
| Mcp.ExistsResult | src/mcp.ts:81-97 | one text block and never an error |
| Mcp.WriteResult | src/mcp.ts:99-123 | one text block and no error flag, even when the write failed |
| Mcp.EditResult | src/mcp.ts:125-155 | one text block; an error exactly when the edit gave nothing |
| Mcp.ListResult | src/mcp.ts:157-175 | an error exactly when the listing is empty; otherwise the listing verbatim |
| Mcp.BetweenConcat | src/mcp.ts:109 | a body framed by a head and a tail can be cut back out |
| Mcp.WriteEchoRoundTrip | src/mcp.ts:109 | the success text of `write_file` carries the written content between its fences, recoverable exactly |
| Mcp.EditEchoRoundTrip | src/mcp.ts:140 | the success text of `edit_file` carries the edited content between its fences, recoverable exactly |
| Mcp.WriteOutcomesDiffer | src/mcp.ts:104-122 | without an error flag, success and failure of a write still produce different results |
| Mcp.ExistsOutcomesDiffer | src/mcp.ts:86-96 | the two existence answers differ for every path |
| Mcp.ReadToolOnStore | src/mcp.ts:61-79 | `read_file` on a store: an error exactly when the store fails or the path is absent, the stored content otherwise |
| Mcp.ListToolErrorIff | src/mcp.ts:157-175 | `list_files` on a store flags an error exactly when the root listing fails |
| Mcp.ToolNames | src/mcp.ts:212-216 | the registered names, tool by tool |
| Mcp.RegistryShape | src/mcp.ts:177-216 | exactly five tools with distinct names: read_file, write_file, list_files, edit_file, file_exists |
| Options.Field | src/options.ts:40-50 | a field of the tool input, "" when absent or when the input is not an object |
| Options.DenyFileSystemToolsHook | src/options.ts:14-31 | an asynchronous "deny" decision for "PreToolUse" with the fixed reason |
| Options.DenyIgnoresInput | src/options.test.ts:4-35 | the deny hook gives the same answer whatever its input and tool-use id |
| Options.SecondPieceNotLast | src/options.ts:51-55 | for "a.b.c" the write replay is offered exactly when ".b" is not a document format, whatever the last piece |
| Options.ThreePieces | src/options.ts:54 | the replay test of a three-piece path reads its middle piece |
| Options.TwoPieces | src/options.ts:51-55 | (about `Options.WriteReplayOffered`) a write to "name.ext" with content is offered exactly when ".ext" is not a document format, so "report.pdf" is not offered |
| Options.DotlessPathOffered | src/options.ts:51-55 | (about `Options.WriteReplayOffered`) a path without a dot is always offered when it and the content are non-empty |
| Options.DeletionNeverOffered | src/options.ts:92-97 | (about `Options.EditReplayOffered`) an edit with an empty new string is never offered for replay |
| Options.EditOfferNeedsWriteTest | src/options.ts:92-97 | (about `Options.EditReplayOffered`) an offered edit has a non-empty path that passes the document test |
| Options.LowerWhitespace | src/options.ts:60 | lowercasing neither creates nor removes whitespace |
| Options.TrimStartLower | src/options.ts:60 | trimming the start commutes with lowercasing |
| Options.TrimEndLower | src/options.ts:60 | trimming the end commutes with lowercasing |
| Options.TrimLowerCommute | src/options.ts:60 | `toLowerCase().trim()` equals `trim().toLowerCase()` |
| Options.LowerConcat | src/options.ts:60 | lowercasing distributes over concatenation |
| Options.TrimStartPad | src/options.ts:60 | leading whitespace is trimmed away up to the first other character |
| Options.TrimEndPad | src/options.ts:60 | trailing whitespace is trimmed away back to the last other character |
| Options.LowerAllWhitespace | src/options.ts:60 | lowercased whitespace is whitespace |
| Options.AffirmativeEnds | src/options.ts:60 | each accepted answer starts and ends with a non-space |
| Options.ApprovesPadded | src/options.ts:60 | (about `Options.IsApproval`) any casing of "y", "yes" or "yse" surrounded by whitespace approves |
| Options.RefusesOtherAnswers | src/options.ts:60 | (about `Options.IsApproval`) an answer whose first character is neither whitespace nor a "y" or "Y" is refused |
| Options.RealFs.constructor | src/options.ts:61 | the real disk as a map from path to content |
| Options.RealFs.AskToPersistFileWrite | src/options.ts:33-68 | the disk changes exactly when the replay is offered and approved and the write works, and then only at the path, to the content; a failing write throws; every return is `{async: true, continue: true}` |
| Options.RealFs.AskToPersistFileEdit | src/options.ts:70-112 | when offered and approved, a missing file or failing write throws and changes nothing; otherwise the file becomes the first-occurrence replacement of its content; unapproved or unoffered calls change nothing; every return continues |
| Options.DenyMatcherIsDisallowed | src/options.ts:114-120 | the deny hook's matcher splits into exactly the disallowed tools, so it fires for exactly those |
| Options.AllowedIsRegistry | src/options.ts:147-156 | the allowed tools are exactly the five registered tools under the "mcp__filesystem__" prefix |
| Options.ReplayHooksOnAllowedTools | src/options.ts:121-130 | the replay hooks listen on the write and edit tools, both allowed |
| Options.QueryOptions.constructor | src/options.ts:147-162 | the shared options: the hooks table, the tool lists, the "filesystem" server, "default" mode and no session |
| Claude.PermissionMode | src/claude.ts:23-27 | "plan" exactly when plan mode is asked for, "default" exactly when not |
| Claude.Agent.constructor | src/claude.ts:14-28 | the agent keeps the very options object; its `resume` becomes the argument and its mode follows `plan`; nothing else changes |
| Claude.SharedOptions | src/claude.ts:21-22 | since the options are shared, a second agent's settings overwrite what the first agent sees |
| Workflow.DirPathOf | src/index.ts:30-34 | the ingested directory is the start event's, or "./" when none is given |
| Workflow.NextAdvances | src/index.ts:26-69 | (about `Workflow.Next`) every handler moves the chain forward and never returns a start or a prompt; only a prompt request and a stop have no handler |
| Workflow.StopErrorIff | src/index.ts:36-68 | (about `Workflow.Next`) every stop a handler returns carries an error exactly when it reports failure |
| Workflow.Trace | src/index.ts:72-73 | a trace starts with the event sent |
| Workflow.StartWithDatabase | src/index.ts:26-29 | with "fs.db" present the start goes straight on to the prompt request and the store is untouched |
| Workflow.StartWithoutDatabase | src/index.ts:30-44 | without it the working directory is recorded, and the trace ends in the prompt request on success or in the fixed failure stop otherwise |
| Workflow.FailedIngestStalls | src/index.ts:36-44 | the prompt request appears exactly when ingestion succeeds |
| Workflow.PromptEndsInStop | src/index.ts:57-69 | a prompt is followed by a stop, successful with no error exactly when the run threw nothing, otherwise carrying the thrown error |
| Workflow.SessionIdOf | src/index.ts:79-83 | a session id exactly when the trimmed answer is not blank, and then the untrimmed answer |
| Workflow.PlanAgreesWithApproval | src/index.ts:84-89 | the plan-mode question accepts exactly the answers the replay hooks accept |
| Workflow.PromptFor | src/index.ts:90-97 | the prompt event carries the prompt, the parsed session id and the parsed plan flag |
| Workflow.Session.constructor | src/index.ts:24 | a session over a store and the shared options |
| Workflow.Session.OpenStore | src/index.ts:24 | opening the store leaves "fs.db" on disk |
| Workflow.Session.Handle | src/index.ts:26-69 | the handler's returned event is `Next`; only a start without the database changes the store, by recording the files; only a prompt changes the agent's two option fields |
| Workflow.Session.RunUntil | src/index.ts:72-73 | dispatching until the target shows the trace, reports whether the target came, and leaves the store as the trace's handlers leave it |
| Workflow.TraceEnd | src/index.ts:73 | a trace ends at the target or at an event no handler takes |
| Workflow.TraceMove | src/index.ts:73 | otherwise it continues with the returned event |
| Workflow.MainAsWritten | src/index.ts:11-99 | as written, the first stream always reads start, files registered, prompt request; the store is never ingested; the resumed run sees only the prompt, then a stop |
| Workflow.MainCorrected | src/index.ts:24-45 | with the existence test taken before opening, a missing database leads to recording the directory, then either the prompt run or, on failure, a stall after the failure stop |
| Workflow.Ask | src/index.ts:74-98 | the answers are parsed into the prompt event, which is resumed alone and runs to its stop; the store stays as it was |
| Workflow.CorrectedIngestStores | src/index.ts:26-44 | a corrected start without the database stores the last collected file with its content; as written the store is unchanged |
| Workflow.OneFileCollected | src/filesystem.ts:40-83 | a directory holding only "notes.md" collects exactly that file |
| Workflow.OneFileIngestDiffers | src/index.ts:24-29 | on that directory the corrected start stores "/notes.md" and the start as written stores nothing |

## Left out

- Strings.ReplaceFirst: JavaScript expands `$&`, `$$` and similar patterns in the replacement; the model inserts the replacement literally, so it assumes new strings hold no "$".
- Strings.ToLower: only ASCII letters are lowered; JavaScript lowercases all of Unicode.
- Ingest.EntryPath: `path.join` normalisation is modelled only for the start directory "./" and for plain directory names; "." and ".." segments and repeated slashes are not resolved.
- Paths.Join: the same simplification, for the names `listFiles` builds.
- StoreFacts.FileExistsIff: it excludes paths that end in "/" or start with "//", whose `dirname` and `basename` behave differently; `fileExists` itself takes any path.
- FileSystem.ExistsAfterWrite: the same exclusion; a write to such a path is not shown to make `fileExists` true.
- Store.ReadDir: AgentFS reports children in an order the model fixes as order of first creation; the AgentFS engine itself (SQLite storage, its path resolution, `AgentFS.open`) is not modelled, and a store path is an exact map key.
- Mcp.ReadResult, Mcp.ExistsResult, Mcp.WriteResult, Mcp.EditResult and Mcp.ListResult: an absent `isError` is modelled as false, and a text block as its string.
- Each tool also opens the store; that call is the same `getAgentFS` as in `Mcp.StorePath` and `Workflow.Session.OpenStore`.
- The console prompts and `consoleInput` (src/cli.ts) are I/O; the operator's answers are parameters.
- Options.RealFs: the real disk is a map from the given path to content; relative-path resolution, encodings and file permissions are left out, and any failure of `fs.writeFile` is one flag.
- `mime.lookup` is the predicate `isTextMime`. `parseFile` (src/llamacloud.ts:11-23) catches its own errors and returns the text gathered so far; it is the function `parse` from path to text, so a failed parse is a document stored with whatever text `parse` gives. The document service itself is not modelled.
- `Agent.run` (src/claude.ts) and the SDK's `query` stream are not modelled; a run is summarised by the error it throws, already serialised by `JSON.stringify`.
- The text of the system prompt (src/options.ts:133-145) is not modelled; the option object's other fields are.
- The workflow library's snapshot and resume are modelled by their effect: the resumed context receives only the prompt event and none of the first context's handlers run again.
- Workflow.Session.RunUntil: when the chain ends without the awaited event, `stream.until` waits forever; the model reports this as `reached == false` and the main sequence as `Stalled`.
- src/mcpServer.ts (HTTP transport), src/codex.ts (a second agent front end not used by the workflow) and src/cli.ts are not part of this model.

## Findings

| source | as written | input that shows it | evidently intended | confidence | as-written member | corrected member |
|---|---|---|---|---|---|---|
| src/index.ts:24-35 | `main` opens the store with `getAgentFS({})` at line 24, which creates "fs.db", before the start handler asks `fs.existsSync("fs.db")` at line 27; the test always succeeds and `recordFiles` never runs | a first run in a directory holding "notes.md" and no "fs.db": the store stays empty and the agent sees no files | test for an existing database before opening it, and ingest the working directory when there was none | not executed | Workflow.MainAsWritten | Workflow.MainCorrected |

`Workflow.OneFileIngestDiffers` exhibits the input. `Workflow.CorrectedIngestStores` proves, for every directory, that the corrected start stores what was collected, while the start as written leaves the store unchanged.
