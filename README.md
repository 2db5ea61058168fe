# Auto-Corker core, modelled in Dafny

Auto-Corker is a desktop app for local-first AI coding. A user request becomes a task in an
in-memory task store. A coder agent asks a chat model for code and writes every
`**FILE: path**` block of the reply into the workspace. It then commits the result. A
dashboard shows the tasks as a kanban board and keeps idea, issue and roadmap lists, which a
language model can extend. Git helpers create worktrees and read `git worktree list --porcelain`.
A file service confines every path to the workspace root.

The model covers six components. Each has its own module, and all modules share the task
entity and a small text library.

| module | file | models |
|---|---|---|
| `Wrappers` | wrappers.dfy | `Option` and `Result`, for null results and thrown exceptions |
| `Text` | text.dfy | the .NET string operations the core uses: `Trim`, `StartsWith` (ordinal and ignore-case), `Contains`, `Split(char)`, `RemoveEmptyEntries`, `TrimEntries`, `Replace(s, "")`, and `int` to text |
| `Entities` | entities.dfy | `TaskStatus` and the mutable `AgentTask` object |
| `AgentManagement` | agent_manager.dfy | `AgentManager`: a list of task objects that are changed in place, with specification functions over their views |
| `Orchestration` | orchestrator.dfy | `OrchestratorService`: create, then assign, then set InProgress |
| `FileBlocks` | file_blocks.dfy | the regex `\*\*FILE:\s*(.+?)\*\*\s*```\w*\n(.*?)```` with `RegexOptions.Singleline`, and the scan `Regex.Matches` makes |
| `Coder` | coder_agent.dfy | `CoderAgent`: one chat call, then the ordered writes and one commit, as a call trace |
| `DashboardModels`, `DashboardViews`, `Dashboard` | dashboard_models.dfy, dashboard_views.dfy, dashboard.dfy | `WorkspaceDashboardService`: task cards, the kanban board, the `Title \| ...` line parsers, and the list-changing operations with their seed-once flag |
| `Git` | git_service.dfy | `GitService`: the branch-name check, the worktree-add call, the porcelain parser and the current repository path |
| `Paths`, `FileSystem` | paths.dfy, file_system.dfy | `Path.Combine` and `Path.GetFullPath` on `/`-separated paths, and `FileSystemService` over a map of files and a set of directories |

The source's own form is kept:
- Objects whose methods update their fields are classes: `AgentTask`, `AgentManager`, `CoderAgent`, `WorkspaceDashboardService`, `GitService` and `FileSystemService`.
- Source loops are methods with loop invariants:
  - the lookup `FirstOrDefault` (`AgentManager.FindTask`);
  - the write loop (`CoderAgent.WriteAll`);
  - the front insertions of generated ideas (`WorkspaceDashboardService.InsertEachAtFront`);
  - the porcelain `foreach` (`GitService.GetWorktrees`).
- Each such method is proved against a specification function: `FindFirst`, `ApplyTrace`, `Reverse` and `ParseLines`. The properties are proved about those functions as lemmas.

Everything outside these components is a parameter:
- The chat model's reply is `chat`. The text generator is `generate`. Readiness is `LlmStatus`.
- `Guid.NewGuid()` results are `id`, `ids` and `ideaIds`. The clock is `now`.
- Whether a file write throws is `writeFails`, and whether the commit throws is `commitFails`.
- The started flag, exit code and output of a git process are `started`, `exitCode`, `output` and `stderr`.
- `Directory.GetParent` is `parentDir`. The forbidden file-name characters are `invalidChars`.

Collaborators that can fail in a way the core handles are modelled by their outcome:
- a file write that throws ends the apply step with `WriteFailed(i)`, and a failed commit gives `CommitFailed`;
- a git process that does not start or exits non-zero gives a `GitError` or an empty worktree list.

The chat model, the text generator, `Repository.Init` and `Repository.Clone` are given as parameters and never fail. A collaborator call is an element of a trace.

### Notes on the code

- `TaskStatus` has four values: Pending, InProgress, Review, Done (src/Corker.Core/Entities/Entities.cs:19-25).
- `CoderAgent.ExecuteAsync` makes one chat call and does no build check (src/Corker.Orchestrator/Agents/CoderAgent.cs:43-47).
- `UpdateTaskStatusAsync` only assigns the status field. It does not set `UpdatedAt` (src/Corker.Orchestrator/Services/AgentManager.cs:44-53).
- `AppSettings.MaxParallelTasks` (src/Corker.Core/Settings/AppSettings.cs:15) is not read by any modelled code. Every modelled operation is sequential.
- The coder agent commits itself, once, after all writes (src/Corker.Orchestrator/Agents/CoderAgent.cs:76-80).
- The fence tag is `\w*`, which must be followed directly by `\n`. `FileBlocks.BadTagNoBlock` proves the consequence for a single rendered block with no `*` in its parts: a tag holding a character that is neither a word character nor `\n` means nothing is found. Such a character can be a `+` in `c++`, a trailing space, or a `\r` after the tag.
- The first `\s*` can give back one character. When no path end after the whole whitespace run works, the engine backtracks by one. That one whitespace character then becomes the path group, which happens only if `**` follows the run at once. `FileBlocks.MatchAt` models that choice point. `FileBlocks.MatchAtCorrect` proves that `MatchAt` is the engine's most preferred fitting split.
- The round trip `**FILE: p**\n```tag\nc```` → `[(p, c)]` needs the content to hold no ``` and not to end in a backquote. Otherwise the closing fence is found one character early. `FileBlocks.WellFormed` states both conditions as `!HasFence(c + "``")`.

## Model

| member | source | states |
|---|---|---|
| Text.SpaceRun | src/Corker.Orchestrator/Agents/CoderAgent.cs:56 | a greedy `\s*` takes the whole whitespace run from `i`: every character taken is whitespace and the next is not |
| Text.SpaceRunIs | src/Corker.Orchestrator/Agents/CoderAgent.cs:56 | a maximal whitespace run of length n is the one `SpaceRun` finds |
| Text.TrimStart | src/Corker.Orchestrator/Agents/CoderAgent.cs:68 | the result is no longer than the input and starts with no whitespace |
| Text.TrimEnd | src/Corker.Orchestrator/Agents/CoderAgent.cs:68 | the result is no longer than the input, ends with no whitespace and keeps the first character |
| Text.Trim | src/Corker.Orchestrator/Agents/CoderAgent.cs:68 | the result has neither leading nor trailing whitespace and is no longer than the input |
| Text.TrimStartDropsSpace | src/Corker.Orchestrator/Agents/CoderAgent.cs:68 | `TrimStart` drops a prefix made only of whitespace and keeps the rest of the text unchanged |
| Text.TrimEndDropsSpace | src/Corker.Orchestrator/Agents/CoderAgent.cs:68 | `TrimEnd` drops a suffix made only of whitespace and keeps the start of the text unchanged |
| Text.TrimDropsSpace | src/Corker.Orchestrator/Agents/CoderAgent.cs:68 | `Trim` returns a contiguous middle slice of the input, and what it drops on either side is all whitespace |
| Text.TrimOfTrimmed | src/Corker.Infrastructure/Git/GitService.cs:147 | trimming text that has no surrounding whitespace returns it unchanged |
| Text.TrimEmptyIff | src/Corker.Orchestrator/Services/WorkspaceDashboardService.cs:523 | `Trim` gives the empty string iff the text is whitespace only, which is why `TrimEntries` turns such a field into one `RemoveEmptyEntries` drops |
| Text.TrimStartAllSpace | src/Corker.Orchestrator/Services/WorkspaceDashboardService.cs:523 | whitespace-only text trims to nothing |
| Text.StartsWithIgnoreCaseOfAppend | src/Corker.Infrastructure/File/FileSystemService.cs:22 | a text always starts with its own prefix under the ignore-case comparison |
| Text.StartsWith | src/Corker.Infrastructure/Git/GitService.cs:147-149 | definition of ordinal `StartsWith`: the text begins with the prefix; used by the porcelain keys and by `IsUnder` |
| Text.UpperAscii | src/Corker.Infrastructure/File/FileSystemService.cs:22 | definition of the ASCII case folding used by `OrdinalIgnoreCase` |
| Text.StartsWithIgnoreCase | src/Corker.Infrastructure/File/FileSystemService.cs:22 | definition of `StartsWith(…, OrdinalIgnoreCase)`: the prefix agrees after case folding; `Text.StartsWithIgnoreCaseOfAppend` and `FileSystem.NormalPathAcceptedIff` characterise it |
| Text.OccursAt | src/Corker.Orchestrator/Agents/CoderAgent.cs:28-41 | definition: the pattern occurs at the given offset; `Coder.Prompt` states the instruction occurs at 47 |
| Text.Contains | src/Corker.Infrastructure/Git/GitService.cs:75 | definition of `string.Contains`: the pattern occurs at some offset; `Git.RejectedBranchNames` uses it for ".." |
| Text.Split | src/Corker.Infrastructure/Git/GitService.cs:135 | `Split(sep)` yields at least one piece, and no piece contains the separator |
| Text.RemoveEmpty | src/Corker.Orchestrator/Services/WorkspaceDashboardService.cs:516 | `RemoveEmptyEntries` keeps exactly the non-empty pieces: none of the result is empty, and a text is in the result iff it is a non-empty piece |
| Text.RemoveEmptyAppend | src/Corker.Orchestrator/Services/WorkspaceDashboardService.cs:516 | dropping empty pieces distributes over concatenation, so relative order is kept |
| Text.TrimEach | src/Corker.Orchestrator/Services/WorkspaceDashboardService.cs:523 | `TrimEntries` trims every piece in place and keeps the count |
| Text.SplitPrepend | src/Corker.Infrastructure/Git/GitService.cs:135 | a non-separator character put in front joins the first piece |
| Text.SplitAppendPiece | src/Corker.Infrastructure/Git/GitService.cs:135 | a separator-free piece followed by a separator splits off as the first piece |
| Text.SplitNoSep | src/Corker.Infrastructure/Git/GitService.cs:135 | text without the separator is one piece |
| Text.SplitJoin | src/Corker.Infrastructure/Git/GitService.cs:135 | splitting separator-free pieces joined with the separator gives the pieces back |
| Text.Join | src/Corker.Infrastructure/Git/GitService.cs:135 | definition: the pieces with the separator between them, the inverse `Text.SplitJoin` proves for `Split` |
| Text.RemoveAll | src/Corker.Infrastructure/Git/GitService.cs:148 | `Replace(pat, "")` never lengthens the text |
| Text.RemoveAllAbsent | src/Corker.Infrastructure/Git/GitService.cs:148 | text that does not contain the pattern is left unchanged |
| Text.RemoveAllPrefix | src/Corker.Infrastructure/Git/GitService.cs:148 | removing the pattern from `pat + s`, with `s` free of it, gives `s` |
| Text.IntToString | src/Corker.Orchestrator/Services/WorkspaceDashboardService.cs:502 | the decimal rendering of `count` is not empty |
| Text.NatToString | src/Corker.Orchestrator/Services/WorkspaceDashboardService.cs:502 | the decimal rendering of a natural number is non-empty and made of digits |
| Text.Digit | src/Corker.Orchestrator/Services/WorkspaceDashboardService.cs:502 | a digit value renders as a character between '0' and '9' |
| Entities.NewTaskView | src/Corker.Core/Entities/AgentTask.cs:3-13 | a new task is Pending, unassigned (the empty GUID), never updated and has no output; it has the given id, title, description and creation time |
| Entities.AgentTask.constructor | src/Corker.Orchestrator/Services/AgentManager.cs:22-27 | the object initialiser yields exactly the properties of a new task |
| AgentManagement.FindFrom | src/Corker.Orchestrator/Services/AgentManager.cs:35 | the lookup returns an index whose task has the id and no earlier task has it; it returns none only when no task from `from` on has it |
| AgentManagement.FindFirst | src/Corker.Orchestrator/Services/AgentManager.cs:35 | definition of `FirstOrDefault(t => t.Id == taskId)` as an index search; `AgentManagement.FindFirstIff` and `AgentManagement.FindFromIs` characterise it, and `AgentManagement.AgentManager.FindTask` is the loop proved equal to it |
| AgentManagement.HasId | src/Corker.Orchestrator/Services/AgentManager.cs:35 | definition: some task has the id, the condition of `AgentManagement.FindFirstIff` |
| AgentManagement.FindFromIs | src/Corker.Orchestrator/Services/AgentManager.cs:35 | the first index with the id is the one the lookup returns |
| AgentManagement.FindFirstIff | src/Corker.Orchestrator/Services/AgentManager.cs:35-36 | `FirstOrDefault` finds a task iff some task has the id |
| AgentManagement.FindFirstDistinct | src/Corker.Orchestrator/Services/AgentManager.cs:46 | with distinct ids the lookup finds the one task with that id |
| AgentManagement.FindFirstSameIds | src/Corker.Orchestrator/Services/AgentManager.cs:46 | the lookup depends on the ids alone, so updates that keep ids keep it |
| AgentManagement.WithStatus | src/Corker.Orchestrator/Services/AgentManager.cs:44-53 | a status update keeps the number of tasks and every id |
| AgentManagement.WithAssignee | src/Corker.Orchestrator/Services/AgentManager.cs:33-42 | an assignment keeps the number of tasks and every id |
| AgentManagement.UnknownIdNoChange | src/Corker.Orchestrator/Services/AgentManager.cs:33-53 | with an unknown id both the status update and the assignment change nothing |
| AgentManagement.StatusUpdateEffect | src/Corker.Orchestrator/Services/AgentManager.cs:46-50 | on a known id, the first task with it gets the new status from whatever it had; its other fields and all other tasks are unchanged |
| AgentManagement.AssignEffect | src/Corker.Orchestrator/Services/AgentManager.cs:35-39 | on a known id, only `AssignedAgentId` of the first task with it changes |
| AgentManagement.StatusLastWins | src/Corker.Orchestrator/Services/AgentManager.cs:47-49 | of two status updates on one id the later decides, so there is no transition restriction |
| AgentManagement.StatusIdempotent | src/Corker.Orchestrator/Services/AgentManager.cs:47-49 | setting the same status twice is setting it once |
| AgentManagement.StatusAssignCommute | src/Corker.Orchestrator/Services/AgentManager.cs:33-53 | a status update and an assignment commute |
| AgentManagement.FindAppended | src/Corker.Orchestrator/Services/AgentManager.cs:28-35 | a task appended with a new id is what the lookup finds for it |
| AgentManagement.FindBeforeAppended | src/Corker.Orchestrator/Services/AgentManager.cs:28-35 | appending does not change a lookup for an id already present |
| AgentManagement.ViewsOf | src/Corker.Orchestrator/Services/AgentManager.cs:57 | the views of the task objects, one per object in list order |
| AgentManagement.AgentManager.constructor | src/Corker.Orchestrator/Services/AgentManager.cs:12-18 | the store starts empty |
| AgentManagement.AgentManager.CreateTask | src/Corker.Orchestrator/Services/AgentManager.cs:20-31 | one new object is appended at the end; the snapshot grows by exactly a new Pending task with the title and description; earlier tasks are untouched |
| AgentManagement.AgentManager.FindTask | src/Corker.Orchestrator/Services/AgentManager.cs:35 | the loop returns the first object whose id matches, or null exactly when none does |
| AgentManagement.AgentManager.AssignTask | src/Corker.Orchestrator/Services/AgentManager.cs:33-42 | the list stays the same and the new snapshot is `WithAssignee` of the old one |
| AgentManagement.AgentManager.UpdateTaskStatus | src/Corker.Orchestrator/Services/AgentManager.cs:44-53 | the list stays the same and the new snapshot is `WithStatus` of the old one |
| AgentManagement.AgentManager.GetTasks | src/Corker.Orchestrator/Services/AgentManager.cs:55-58 | the copy holds every task in creation order |
| Orchestration.AfterRequest | src/Corker.Orchestrator/OrchestratorService.cs:26-36 | a request adds exactly one task |
| Orchestration.RequestWithFreshId | src/Corker.Orchestrator/OrchestratorService.cs:31-35 | with an unused id, the earlier tasks are unchanged and the new last one is "Analyze Request", has the request as its description, is assigned to the new agent id and is InProgress |
| Orchestration.RequestWithTakenId | src/Corker.Orchestrator/OrchestratorService.cs:31-35 | if the id is taken, the older task is the one assigned and set InProgress, and the new task stays Pending and unassigned |
| Orchestration.OrchestratorService.constructor | src/Corker.Orchestrator/OrchestratorService.cs:14-18 | the service works on the store it was given |
| Orchestration.OrchestratorService.StartSession | src/Corker.Orchestrator/OrchestratorService.cs:19-24 | starting a session changes no task |
| Orchestration.OrchestratorService.ProcessUserRequest | src/Corker.Orchestrator/OrchestratorService.cs:26-36 | create, assign and update run in that order: the new snapshot is `AfterRequest` of the old one |
| FileBlocks.WordRun | src/Corker.Orchestrator/Agents/CoderAgent.cs:56 | `\w*` takes the whole run of word characters |
| FileBlocks.WordRunIs | src/Corker.Orchestrator/Agents/CoderAgent.cs:56 | a maximal run of word characters is the one `WordRun` finds |
| FileBlocks.FirstFence | src/Corker.Orchestrator/Agents/CoderAgent.cs:56 | the lazy `(.*?)` stops at the first ``` at or after its start, and at none if there is none |
| FileBlocks.FirstFenceIs | src/Corker.Orchestrator/Agents/CoderAgent.cs:56 | the first fence from `i` is the one `FirstFence` finds |
| FileBlocks.TailAt | src/Corker.Orchestrator/Agents/CoderAgent.cs:56 | what follows a path group ending at `pe` fits `\*\*\s*```\w*\n(.*?)```` |
| FileBlocks.TailAtNoFence | src/Corker.Orchestrator/Agents/CoderAgent.cs:56 | the content group of a tail holds no fence |
| FileBlocks.TailAtComplete | src/Corker.Orchestrator/Agents/CoderAgent.cs:56 | after the path group the choices are forced; any fitting tail has the same whitespace and tag lengths and a content that ends no earlier |
| FileBlocks.SearchGroup | src/Corker.Orchestrator/Agents/CoderAgent.cs:56 | the lazy `(.+?)` tries ends from `from` upward, and any end it returns has a fitting tail |
| FileBlocks.SearchGroupIs | src/Corker.Orchestrator/Agents/CoderAgent.cs:56 | the first end with a fitting tail is the one the search returns |
| FileBlocks.SearchGroupFirst | src/Corker.Orchestrator/Agents/CoderAgent.cs:56 | no earlier end has a fitting tail, and when the search finds nothing no end at all has one |
| FileBlocks.MatchAt | src/Corker.Orchestrator/Agents/CoderAgent.cs:56 | a match the engine finds at index 0 fits the whole pattern and ends within the text |
| FileBlocks.MatchAtNoFence | src/Corker.Orchestrator/Agents/CoderAgent.cs:56 | the content group of the engine's match holds no fence |
| FileBlocks.FitsWithinRun | src/Corker.Orchestrator/Agents/CoderAgent.cs:56 | the first `\s*` takes at most the whitespace run after the marker |
| FileBlocks.FitsEndAfterRun | src/Corker.Orchestrator/Agents/CoderAgent.cs:56 | a path group that ends inside the whitespace run ends exactly after it |
| FileBlocks.PreferredWithFullRun | src/Corker.Orchestrator/Agents/CoderAgent.cs:56 | when a path end after the whole run works, the engine's match is preferred over every fitting split |
| FileBlocks.ShortRunEnd | src/Corker.Orchestrator/Agents/CoderAgent.cs:56 | otherwise a fitting split gives whitespace back and ends its path right after the run |
| FileBlocks.PreferredWithShortRun | src/Corker.Orchestrator/Agents/CoderAgent.cs:56 | in that case the engine's backtracked match is preferred over every fitting split |
| FileBlocks.MatchAtPreferred | src/Corker.Orchestrator/Agents/CoderAgent.cs:56 | whenever some split fits, the engine finds a match, and it is preferred over that split |
| FileBlocks.MatchAtCorrect | src/Corker.Orchestrator/Agents/CoderAgent.cs:56 | `MatchAt` is the backtracking engine's answer: the most preferred fitting split, and absent iff nothing fits |
| FileBlocks.NoFenceInSlice | src/Corker.Orchestrator/Agents/CoderAgent.cs:56 | a stretch with no fence position is a content without ``` |
| FileBlocks.Matches | src/Corker.Orchestrator/Agents/CoderAgent.cs:56-58 | the leftmost non-overlapping scan: no content group holds ```, and every path group is non-empty |
| FileBlocks.MatchesAt | src/Corker.Orchestrator/Agents/CoderAgent.cs:58 | at a match, the scan takes it and resumes after its closing fence |
| FileBlocks.RenderLayout | src/Corker.Orchestrator/Agents/CoderAgent.cs:35-38 | where marker, path, stars, fence, tag, content and closing fence lie in a block in the prompt's format |
| FileBlocks.Render | src/Corker.Orchestrator/Agents/CoderAgent.cs:35-38 | definition of a block in the prompt's format; `FileBlocks.MatchesRenderAll` proves that the parser reads well-formed renderings back |
| FileBlocks.WellFormed | src/Corker.Orchestrator/Agents/CoderAgent.cs:56 | definition of the blocks the round trip covers: a trimmed non-empty path without `**`, a word tag, and content for which `HasFence(c + "``")` is false |
| FileBlocks.TailAtRendered | src/Corker.Orchestrator/Agents/CoderAgent.cs:56 | the tail of a block in the prompt's format is one newline, the tag and the content up to the closing fence |
| FileBlocks.NoTailBefore | src/Corker.Orchestrator/Agents/CoderAgent.cs:56 | the lazy path group cannot stop before the first `**` |
| FileBlocks.MatchAtRendered | src/Corker.Orchestrator/Agents/CoderAgent.cs:56 | for a well-formed rendered block, the engine's match spans exactly the path and the content |
| FileBlocks.MatchesRenderedBlock | src/Corker.Orchestrator/Agents/CoderAgent.cs:56-58 | a well-formed block at the front is read back as (path, content), and the scan resumes with what follows |
| FileBlocks.MatchesRenderAll | src/Corker.Orchestrator/Agents/CoderAgent.cs:56-58 | round trip: N well-formed rendered blocks give exactly N matches, their pairs in order |
| FileBlocks.MatchesWithoutMarker | src/Corker.Orchestrator/Agents/CoderAgent.cs:56-58 | text without a `**FILE:` marker has no match |
| FileBlocks.StarsOfRendered | src/Corker.Orchestrator/Agents/CoderAgent.cs:35-38 | a rendered block without stars in its parts has stars only in the marker and after the path |
| FileBlocks.BadTagLayout | src/Corker.Orchestrator/Agents/CoderAgent.cs:56 | where a bad tag character lies in a rendered block |
| FileBlocks.BadTagNoTailAt | src/Corker.Orchestrator/Agents/CoderAgent.cs:56 | a fence whose word run is followed by something other than a newline has no tail |
| FileBlocks.BadTagNoTail | src/Corker.Orchestrator/Agents/CoderAgent.cs:56 | `\w*\n` rejects a tag holding a character that is neither a word character nor a newline |
| FileBlocks.BadTagNoTailAnywhere | src/Corker.Orchestrator/Agents/CoderAgent.cs:56 | with such a tag no path end in the block has a tail |
| FileBlocks.MatchesOnlyMarkerAtStart | src/Corker.Orchestrator/Agents/CoderAgent.cs:56-58 | a text whose only marker is at its start and does not match there has no match |
| FileBlocks.RenderedMarkerOnlyAtStart | src/Corker.Orchestrator/Agents/CoderAgent.cs:35-38 | a rendered block without stars in its parts holds a marker only at its start |
| FileBlocks.BadTagNoBlock | src/Corker.Orchestrator/Agents/CoderAgent.cs:56 | a `c++` tag, a trailing space or a `\r` after the tag means the block is not found at all |
| Coder.Prompt | src/Corker.Orchestrator/Agents/CoderAgent.cs:28-41 | the prompt sent holds the instruction, spliced in after the fixed opening |
| Coder.Writes | src/Corker.Orchestrator/Agents/CoderAgent.cs:66-73 | one write per block |
| Coder.WritesAt | src/Corker.Orchestrator/Agents/CoderAgent.cs:66-72 | write k carries the trimmed path group and the verbatim content of block k |
| Coder.WritesAppend | src/Corker.Orchestrator/Agents/CoderAgent.cs:66-73 | one more block adds its write at the end |
| Coder.WriteOf | src/Corker.Orchestrator/Agents/CoderAgent.cs:68-72 | definition of one write: the trimmed path group and the verbatim content group; `Coder.WritesAt` states it per block |
| Coder.WriteThrows | src/Corker.Orchestrator/Agents/CoderAgent.cs:72 | definition: whether the write of this block throws |
| Coder.FirstFailure | src/Corker.Orchestrator/Agents/CoderAgent.cs:66-73 | definition: the first block whose write throws; `Coder.FirstFailureIs` characterises it |
| Coder.ApplyTrace | src/Corker.Orchestrator/Agents/CoderAgent.cs:50-81 | definition of the calls of the apply step; `Coder.NoBlocksOnlyWarning`, `Coder.AllWritesThenCommit`, `Coder.FailedWriteStops` and `Coder.CommitIff` characterise it, and `Coder.CoderAgent.ParseAndApplyChanges` is proved to make exactly these calls |
| Coder.ApplyOutcome | src/Corker.Orchestrator/Agents/CoderAgent.cs:50-81 | definition of how the apply step ends; `Coder.FailureAt`, `Coder.NoFailureAtEnd` and `Coder.FailedWriteStops` characterise it |
| Coder.ExecuteTrace | src/Corker.Orchestrator/Agents/CoderAgent.cs:22-48 | definition of the calls of `ExecuteAsync`; `Coder.OneChatFirst` characterises it, and `Coder.CoderAgent.Execute` is proved to make exactly these calls |
| Coder.FirstFailureFrom | src/Corker.Orchestrator/Agents/CoderAgent.cs:66-73 | the first block from `from` whose write throws; none only when no write from there throws |
| Coder.NoFailureFrom | src/Corker.Orchestrator/Agents/CoderAgent.cs:66-73 | when no write from `from` on throws, there is no failure from there |
| Coder.FirstFailureIs | src/Corker.Orchestrator/Agents/CoderAgent.cs:66-73 | the first throwing write is the failure found |
| Coder.FailureAt | src/Corker.Orchestrator/Agents/CoderAgent.cs:66-80 | when the write of block i is the first to throw, the trace is the writes up to i and the outcome is that failure |
| Coder.NoFailureAtEnd | src/Corker.Orchestrator/Agents/CoderAgent.cs:66-80 | when no write throws, all writes are followed by the commit, and the outcome depends only on the commit |
| Coder.NoBlocksOnlyWarning | src/Corker.Orchestrator/Agents/CoderAgent.cs:60-64 | a reply without blocks causes only the warning: no write and no commit |
| Coder.AllWritesThenCommit | src/Corker.Orchestrator/Agents/CoderAgent.cs:66-80 | N blocks give exactly N writes in block order, each with the trimmed path and verbatim content, then the one commit with the fixed message |
| Coder.FailedWriteStops | src/Corker.Orchestrator/Agents/CoderAgent.cs:66-80 | a throwing write ends the step: later blocks are not written, nothing is committed, and the outcome is that failure |
| Coder.ApplyTraceHasNoChat | src/Corker.Orchestrator/Agents/CoderAgent.cs:50-81 | the apply step makes no chat call |
| Coder.CommitIff | src/Corker.Orchestrator/Agents/CoderAgent.cs:60-80 | a commit is issued iff at least one block is found and no write throws |
| Coder.WrittenContentHasNoFence | src/Corker.Orchestrator/Agents/CoderAgent.cs:56-72 | no written content contains ``` |
| Coder.OneChatFirst | src/Corker.Orchestrator/Agents/CoderAgent.cs:43-47 | `ExecuteAsync` makes exactly one chat call, first, then hands the whole reply to the parser; no retry, no other chat |
| Coder.ApplyRendered | src/Corker.Orchestrator/Agents/CoderAgent.cs:50-81 | round trip through the apply step: rendered well-formed blocks are written exactly, in order, then committed |
| Coder.TestBlockWellFormed | src/Corker.Tests/AgentLoopTests.cs:20 | the test's block for `test.txt` is well-formed |
| Coder.TestReplyRendered | src/Corker.Tests/AgentLoopTests.cs:20 | the test's reply is the rendering of that block |
| Coder.AgentLoopTestBlocks | src/Corker.Tests/AgentLoopTests.cs:19-20 | the test's reply yields one block, for `test.txt` with content `code\n` |
| Coder.AgentLoopTestReply | src/Corker.Tests/AgentLoopTests.cs:45 | applying the test's reply writes `code\n` to `test.txt` once, then commits |
| Coder.CoderAgent.constructor | src/Corker.Orchestrator/Agents/CoderAgent.cs:12-20 | a new agent has made no calls |
| Coder.CoderAgent.ParseAndApplyChanges | src/Corker.Orchestrator/Agents/CoderAgent.cs:50-81 | the calls added are `ApplyTrace` of the matches, and the outcome is `ApplyOutcome` |
| Coder.CoderAgent.ApplyAll | src/Corker.Orchestrator/Agents/CoderAgent.cs:58-80 | the same, for the matches already found |
| Coder.CoderAgent.WriteAll | src/Corker.Orchestrator/Agents/CoderAgent.cs:66-73 | the loop returns the first failing block, if any; it has issued the writes up to and including it, or all writes when none fails |
| Coder.CoderAgent.Execute | src/Corker.Orchestrator/Agents/CoderAgent.cs:22-48 | one chat call with the fixed system prompt, then exactly the apply step on the reply |
| DashboardViews.TaskCardFields | src/Corker.Orchestrator/Services/WorkspaceDashboardService.cs:459-490 | a card copies id, title, description and status; its progress is 45 iff the task is InProgress, else 100 |
| DashboardViews.StatusLabel | src/Corker.Orchestrator/Services/WorkspaceDashboardService.cs:461-468 | definition of the status label switch; `DashboardViews.StatusLabelInjective` characterises it |
| DashboardViews.StatusClass | src/Corker.Orchestrator/Services/WorkspaceDashboardService.cs:470-477 | definition of the status class switch; `DashboardViews.StatusClassShared` characterises it |
| DashboardViews.BuildTaskCard | src/Corker.Orchestrator/Services/WorkspaceDashboardService.cs:459-490 | definition of the card built from a task; `DashboardViews.TaskCardFields` characterises it |
| DashboardViews.StatusLabelInjective | src/Corker.Orchestrator/Services/WorkspaceDashboardService.cs:461-468 | the label tells the four statuses apart |
| DashboardViews.StatusClassShared | src/Corker.Orchestrator/Services/WorkspaceDashboardService.cs:470-477 | the class is "green" exactly for InProgress and Done |
| DashboardViews.Cards | src/Corker.Orchestrator/Services/WorkspaceDashboardService.cs:46 | one card per task, in task order |
| DashboardViews.WithStatus | src/Corker.Orchestrator/Services/WorkspaceDashboardService.cs:50-54 | the filter keeps only cards of that status |
| DashboardViews.WithStatusMembers | src/Corker.Orchestrator/Services/WorkspaceDashboardService.cs:50-54 | a card is kept iff it is among the cards and has that status |
| DashboardViews.WithStatusAppend | src/Corker.Orchestrator/Services/WorkspaceDashboardService.cs:50-54 | the filter distributes over concatenation, so relative order is preserved |
| DashboardViews.Kanban | src/Corker.Orchestrator/Services/WorkspaceDashboardService.cs:48-55 | the board has five columns |
| DashboardViews.ColumnOf | src/Corker.Orchestrator/Services/WorkspaceDashboardService.cs:50-54 | every status has a column, and none is "ai-review" |
| DashboardViews.KanbanShape | src/Corker.Orchestrator/Services/WorkspaceDashboardService.cs:48-55 | the keys are backlog, in-progress, ai-review, human-review, done in that order, and ai-review is empty |
| DashboardViews.KanbanPlacement | src/Corker.Orchestrator/Services/WorkspaceDashboardService.cs:46-54 | a card is in column k iff it is one of the cards and k is its status's column |
| DashboardViews.StatusPartition | src/Corker.Orchestrator/Services/WorkspaceDashboardService.cs:50-54 | the four status filters together hold every card exactly once |
| DashboardViews.KanbanPartition | src/Corker.Orchestrator/Services/WorkspaceDashboardService.cs:46-55 | the five columns together are the cards as a multiset: each task appears exactly once |
| DashboardViews.KanbanAppend | src/Corker.Orchestrator/Services/WorkspaceDashboardService.cs:46-54 | each column of the board of two lists is the concatenation of their columns |
| DashboardViews.Fields | src/Corker.Orchestrator/Services/WorkspaceDashboardService.cs:523 | every field is non-empty and trimmed |
| DashboardViews.Lines | src/Corker.Orchestrator/Services/WorkspaceDashboardService.cs:516 | definition of `Split('\n', RemoveEmptyEntries)`: the non-empty lines in order, as `Text.RemoveEmpty` states |
| DashboardViews.AtMost | src/Corker.Orchestrator/Services/WorkspaceDashboardService.cs:518-521 | a loop that stops at `max` takes min(n, max) of n candidates, and none if `max` is not positive |
| DashboardViews.RowsWith | src/Corker.Orchestrator/Services/WorkspaceDashboardService.cs:523-527 | the lines kept have at least `need` fields |
| DashboardViews.DelimitedLoop | src/Corker.Orchestrator/Services/WorkspaceDashboardService.cs:544-564 | every pair is two non-empty trimmed fields |
| DashboardViews.PairOf | src/Corker.Orchestrator/Services/WorkspaceDashboardService.cs:560 | definition: the first two fields of a line |
| DashboardViews.ParseDelimitedItems | src/Corker.Orchestrator/Services/WorkspaceDashboardService.cs:544-564 | definition of `ParseDelimitedItems`; `DashboardViews.ParseDelimitedItemsSpec` characterises it |
| DashboardViews.DelimitedLoopSpec | src/Corker.Orchestrator/Services/WorkspaceDashboardService.cs:547-561 | the loop with its break gives the first `max` pairs of the lines with at least two fields, in line order, ignoring later fields |
| DashboardViews.ParseDelimitedItemsSpec | src/Corker.Orchestrator/Services/WorkspaceDashboardService.cs:544-564 | at most `max` items, the first two fields of the qualifying lines, in line order |
| DashboardViews.IdeasLoop | src/Corker.Orchestrator/Services/WorkspaceDashboardService.cs:513-542 | every idea is "Draft", owned by "Local LLM", with the summary as its description |
| DashboardViews.IdeaOf | src/Corker.Orchestrator/Services/WorkspaceDashboardService.cs:529-538 | definition of the idea built from one line's four fields; `DashboardViews.ParseIdeasSpec` states its fields |
| DashboardViews.ParseIdeas | src/Corker.Orchestrator/Services/WorkspaceDashboardService.cs:513-542 | definition of `ParseIdeas`; `DashboardViews.ParseIdeasSpec` characterises it |
| DashboardViews.IdeasLoopLength | src/Corker.Orchestrator/Services/WorkspaceDashboardService.cs:516-527 | with n ideas taken, the loop yields min(rows, max − n) more |
| DashboardViews.IdeasLoopAt | src/Corker.Orchestrator/Services/WorkspaceDashboardService.cs:529-538 | idea k comes from the k-th line with at least four fields, with the (n + k)-th id |
| DashboardViews.ParseIdeasSpec | src/Corker.Orchestrator/Services/WorkspaceDashboardService.cs:513-542 | at most `max` ideas, from the lines with four fields in line order: title, type, impact and summary, summary as description, "Draft", "Local LLM" |
| Dashboard.AfterSeed | src/Corker.Orchestrator/Services/WorkspaceDashboardService.cs:279-297 | after seeding the flag is set |
| Dashboard.SeedAtMostOnce | src/Corker.Orchestrator/Services/WorkspaceDashboardService.cs:279-297 | a second seeding changes nothing |
| Dashboard.SeedAddsSeedLists | src/Corker.Orchestrator/Services/WorkspaceDashboardService.cs:311-420 | the first seeding appends exactly the seed ideas, issues and roadmap groups |
| Dashboard.CreateWithStatusFresh | src/Corker.Orchestrator/Services/WorkspaceDashboardService.cs:299-300 | with an unused id, a created task then given a status is appended with that status |
| Dashboard.StillFresh | src/Corker.Orchestrator/Services/WorkspaceDashboardService.cs:299-309 | appending a task with another id keeps an id unused |
| Dashboard.AfterSeedTasks | src/Corker.Orchestrator/Services/WorkspaceDashboardService.cs:299-309 | definition of the store after the four create/status pairs; `Dashboard.SeedTasksFresh` characterises it |
| Dashboard.SeedStore | src/Corker.Orchestrator/Services/WorkspaceDashboardService.cs:279-309 | definition: the seed tasks go in only on the first seeding; `Dashboard.WorkspaceDashboardService.Seed` is proved to leave the store in this state |
| Dashboard.SeedTasksFresh | src/Corker.Orchestrator/Services/WorkspaceDashboardService.cs:299-309 | with fresh ids, seeding appends four unassigned tasks, Pending, InProgress, Review and Done, and changes no earlier task |
| Dashboard.SeededBoardFromEmpty | src/Corker.Orchestrator/Services/WorkspaceDashboardService.cs:42-56 | a board seeded from an empty store has one card in every column except the empty "AI Review" |
| Dashboard.SyncIssuesGrowsByOne | src/Corker.Orchestrator/Services/WorkspaceDashboardService.cs:94-109 | each sync grows the issues by one, at the front; nothing else changes |
| Dashboard.AfterSyncIssues | src/Corker.Orchestrator/Services/WorkspaceDashboardService.cs:94-109 | definition of the state after a sync; `Dashboard.SyncIssuesGrowsByOne` characterises it |
| Dashboard.Reverse | src/Corker.Orchestrator/Services/WorkspaceDashboardService.cs:80-83 | the sequence in opposite order |
| Dashboard.ReverseAppendOne | src/Corker.Orchestrator/Services/WorkspaceDashboardService.cs:80-83 | reversing after appending puts the new element first |
| Dashboard.ReverseStep | src/Corker.Orchestrator/Services/WorkspaceDashboardService.cs:82 | one `Insert(0, …)` extends the reversed prefix by one |
| Dashboard.FallbackIdea | src/Corker.Orchestrator/Services/WorkspaceDashboardService.cs:494-500 | definition of the one idea offered when the model is not ready |
| Dashboard.IdeasPrompt | src/Corker.Orchestrator/Services/WorkspaceDashboardService.cs:502 | definition of the ideas prompt with the count in decimal |
| Dashboard.GeneratedIdeas | src/Corker.Orchestrator/Services/WorkspaceDashboardService.cs:492-511 | definition of what `TryGenerateIdeasAsync` returns; `Dashboard.GenerateIdeasNotReady` and `Dashboard.GenerateIdeasReady` characterise it |
| Dashboard.AfterGenerateIdeas | src/Corker.Orchestrator/Services/WorkspaceDashboardService.cs:75-86 | definition of the state after generating ideas; `Dashboard.GenerateIdeasOrder` characterises it |
| Dashboard.GenerateIdeasOrder | src/Corker.Orchestrator/Services/WorkspaceDashboardService.cs:75-86 | the ideas become the generated ones last-first followed by the old ones; issues and roadmap are unchanged |
| Dashboard.GenerateIdeasNotReady | src/Corker.Orchestrator/Services/WorkspaceDashboardService.cs:494-500 | when the model is not ready, exactly the one fallback idea is added, at the front |
| Dashboard.GenerateIdeasReady | src/Corker.Orchestrator/Services/WorkspaceDashboardService.cs:502-510 | when ready, at most `count` ideas are added, each "Draft" |
| Dashboard.RoadmapItems | src/Corker.Orchestrator/Services/WorkspaceDashboardService.cs:205-207 | one item per parsed pair, with its title and impact |
| Dashboard.RoadmapGroupsFor | src/Corker.Orchestrator/Services/WorkspaceDashboardService.cs:214-218 | definition of the four priority groups that replace the old ones |
| Dashboard.AfterGenerateRoadmap | src/Corker.Orchestrator/Services/WorkspaceDashboardService.cs:194-219 | definition of the state after generating the roadmap; `Dashboard.GenerateRoadmapEffect` characterises it |
| Dashboard.GenerateRoadmapEffect | src/Corker.Orchestrator/Services/WorkspaceDashboardService.cs:194-219 | nothing changes when the model is not ready or no item parses; otherwise the roadmap is four groups, "Must Have" holding the parsed items (at most three) |
| Dashboard.WorkspaceDashboardService.constructor | src/Corker.Orchestrator/Services/WorkspaceDashboardService.cs:30-40 | the service starts unseeded with empty lists |
| Dashboard.WorkspaceDashboardService.Seed | src/Corker.Orchestrator/Services/WorkspaceDashboardService.cs:290-457 | the new state is `AfterSeed`; the seed tasks go in only on the first call |
| Dashboard.WorkspaceDashboardService.SeedTask | src/Corker.Orchestrator/Services/WorkspaceDashboardService.cs:299-300 | one new task object is appended and the snapshot is `CreateWithStatus` |
| Dashboard.WorkspaceDashboardService.SeedTasks | src/Corker.Orchestrator/Services/WorkspaceDashboardService.cs:299-309 | the snapshot becomes `AfterSeedTasks` |
| Dashboard.WorkspaceDashboardService.EnsureSeeded | src/Corker.Orchestrator/Services/WorkspaceDashboardService.cs:279-287 | as `Seed`: seeds only when the flag is unset |
| Dashboard.WorkspaceDashboardService.GetKanban | src/Corker.Orchestrator/Services/WorkspaceDashboardService.cs:42-56 | after seeding, the columns are the board of the cards of every task in the store |
| Dashboard.WorkspaceDashboardService.CreateTask | src/Corker.Orchestrator/Services/WorkspaceDashboardService.cs:58-62 | returns the new task's id, and the store grows by that one Pending task |
| Dashboard.WorkspaceDashboardService.UpdateTaskStatus | src/Corker.Orchestrator/Services/WorkspaceDashboardService.cs:64-67 | the store's snapshot becomes `WithStatus` of the old one |
| Dashboard.WorkspaceDashboardService.GetIdeas | src/Corker.Orchestrator/Services/WorkspaceDashboardService.cs:69-73 | returns the ideas after seeding |
| Dashboard.WorkspaceDashboardService.GenerateIdeas | src/Corker.Orchestrator/Services/WorkspaceDashboardService.cs:75-86 | the new state is `AfterGenerateIdeas` with the generated ideas |
| Dashboard.WorkspaceDashboardService.TryGenerateIdeas | src/Corker.Orchestrator/Services/WorkspaceDashboardService.cs:492-511 | the fallback idea, or the ideas parsed from the reply |
| Dashboard.WorkspaceDashboardService.InsertEachAtFront | src/Corker.Orchestrator/Services/WorkspaceDashboardService.cs:80-83 | the ideas become the reversed generated ones followed by the old ones; nothing else changes |
| Dashboard.WorkspaceDashboardService.GetIssues | src/Corker.Orchestrator/Services/WorkspaceDashboardService.cs:88-92 | returns the issues after seeding |
| Dashboard.WorkspaceDashboardService.SyncIssues | src/Corker.Orchestrator/Services/WorkspaceDashboardService.cs:94-109 | the new state is `AfterSyncIssues` |
| Dashboard.WorkspaceDashboardService.GetRoadmapByPriority | src/Corker.Orchestrator/Services/WorkspaceDashboardService.cs:182-186 | returns the roadmap groups after seeding |
| Dashboard.WorkspaceDashboardService.GenerateRoadmap | src/Corker.Orchestrator/Services/WorkspaceDashboardService.cs:194-219 | the new state is `AfterGenerateRoadmap` |
| Git.RejectedBranchNames | src/Corker.Infrastructure/Git/GitService.cs:75-78 | a whitespace-only name, a name containing "..", or a name with a forbidden character is rejected |
| Git.ValidBranchName | src/Corker.Infrastructure/Git/GitService.cs:75 | definition of the branch-name check; `Git.RejectedBranchNames` and `Git.AcceptedBranchName` characterise it in both directions |
| Git.AcceptedBranchName | src/Corker.Infrastructure/Git/GitService.cs:75 | a name with a non-space character, no "..", and only allowed characters is accepted |
| Git.AcceptedBranchIsOneSegment | src/Corker.Infrastructure/Git/GitService.cs:75-87 | when '/' is forbidden, an accepted name is one path segment other than "..", so the worktree sits directly in the worktrees directory |
| Git.Close | src/Corker.Infrastructure/Git/GitService.cs:142 | a record is kept iff its path is non-empty |
| Git.ApplyLine | src/Corker.Infrastructure/Git/GitService.cs:147-149 | definition of one non-blank line's update; `Git.ApplyPathLine`, `Git.ApplyHeadLine` and `Git.ApplyBranchLine` characterise it |
| Git.ApplyLines | src/Corker.Infrastructure/Git/GitService.cs:147-149 | definition: the updates of several lines in turn; `Git.RepeatedKeyOverwrites` characterises it |
| Git.ParseLines | src/Corker.Infrastructure/Git/GitService.cs:134-151 | every record returned has a path |
| Git.ParsePorcelain | src/Corker.Infrastructure/Git/GitService.cs:134-153 | definition: `ParseLines` of `output.Split('\n')` from a new record; `Git.PorcelainRoundTrip` characterises it |
| Git.WorktreeList | src/Corker.Infrastructure/Git/GitService.cs:112-154 | definition of the result of `GetWorktreesAsync` from the process outcome; `Git.GitService.GetWorktrees` is the loop proved equal to it |
| Git.RecordLines | src/Corker.Infrastructure/Git/GitService.cs:138-150 | definition: a record's porcelain lines as git writes them, the input `Git.ParseRecord` reads back |
| Git.PorcelainLines | src/Corker.Infrastructure/Git/GitService.cs:134-151 | definition: the porcelain lines of several records |
| Git.Porcelain | src/Corker.Infrastructure/Git/GitService.cs:134-153 | definition: git's porcelain text for several records, the input of `Git.PorcelainRoundTrip` |
| Git.LastRecordKept | src/Corker.Infrastructure/Git/GitService.cs:151 | without blank lines the input is one record, kept iff it ends up with a path |
| Git.RepeatedKeyOverwrites | src/Corker.Infrastructure/Git/GitService.cs:147-149 | of two lines with the same key, the later decides |
| Git.PathLineTwice | src/Corker.Infrastructure/Git/GitService.cs:147 | a second "worktree " line overwrites the first |
| Git.BranchLineTwice | src/Corker.Infrastructure/Git/GitService.cs:148 | a second "branch " line overwrites the first |
| Git.HeadLineTwice | src/Corker.Infrastructure/Git/GitService.cs:149 | a second "HEAD " line overwrites the first |
| Git.TrimmedAfterPrefix | src/Corker.Infrastructure/Git/GitService.cs:148 | trimmed text after a prefix without surrounding whitespace stays trimmed |
| Git.ApplyPathLine | src/Corker.Infrastructure/Git/GitService.cs:147 | "worktree p" sets the path to p |
| Git.ApplyHeadLine | src/Corker.Infrastructure/Git/GitService.cs:149 | "HEAD h" sets the head to h |
| Git.ApplyBranchLine | src/Corker.Infrastructure/Git/GitService.cs:148 | "branch refs/heads/b" sets the branch to the short name b |
| Git.ApplyRecordLines | src/Corker.Infrastructure/Git/GitService.cs:147-149 | a record's three porcelain lines rebuild it from a new record |
| Git.ParseRecord | src/Corker.Infrastructure/Git/GitService.cs:138-145 | one record's lines and blank line are read back as that record |
| Git.PorcelainLinesCons | src/Corker.Infrastructure/Git/GitService.cs:134-151 | the lines of several records start with those of the first |
| Git.ParsePorcelainLines | src/Corker.Infrastructure/Git/GitService.cs:134-151 | the porcelain lines of well-formed records parse back to those records, in order |
| Git.ParseLinesStep | src/Corker.Infrastructure/Git/GitService.cs:138-150 | one line of the parse: a blank line closes the record, any other updates it |
| Git.NoNewlineInLines | src/Corker.Infrastructure/Git/GitService.cs:135 | porcelain lines of well-formed records hold no newline |
| Git.PorcelainRoundTrip | src/Corker.Infrastructure/Git/GitService.cs:134-153 | parsing git's porcelain output for well-formed records gives them back, in order |
| Git.GitService.constructor | src/Corker.Infrastructure/Git/GitService.cs:15-20 | the current directory is the default repository; no call made |
| Git.GitService.Init | src/Corker.Infrastructure/Git/GitService.cs:22-28 | the new repository becomes the current one |
| Git.GitService.Clone | src/Corker.Infrastructure/Git/GitService.cs:47-53 | the local copy becomes the current repository |
| Git.GitService.CreateWorktree | src/Corker.Infrastructure/Git/GitService.cs:73-110 | an invalid name fails before any call; no parent fails before any call; otherwise the worktrees directory is created, then `git worktree add -b` runs in the repository, and the result follows from start and exit code |
| Git.GitService.GetWorktrees | src/Corker.Infrastructure/Git/GitService.cs:112-154 | the loop gives the records `ParseLines` specifies, in input order; nothing when git does not start or fails |
| Paths.Combine | src/Corker.Infrastructure/File/FileSystemService.cs:21 | combining with an absolute root stays absolute, and an absolute second part replaces the root |
| Paths.Resolve | src/Corker.Infrastructure/File/FileSystemService.cs:21 | normalising leaves only names: no empty, "." or ".." segment |
| Paths.Render | src/Corker.Infrastructure/File/FileSystemService.cs:21 | a normal path is absolute |
| Paths.RenderNames | src/Corker.Infrastructure/File/FileSystemService.cs:21 | rendered names start with the separator |
| Paths.FullPath | src/Corker.Infrastructure/File/FileSystemService.cs:21 | definition of `Path.GetFullPath` on an absolute path; `Paths.FullPathIdempotent`, `Paths.FullPathOfRender` and `Paths.FullPathHasOnlyNames` characterise it |
| Paths.RenderNamesAppend | src/Corker.Infrastructure/File/FileSystemService.cs:21 | rendering distributes over concatenation |
| Paths.SplitSepFirst | src/Corker.Infrastructure/File/FileSystemService.cs:21 | a leading separator gives an empty first piece |
| Paths.SplitRenderNames | src/Corker.Infrastructure/File/FileSystemService.cs:21 | rendered names split back into the empty root piece and the names |
| Paths.ResolveNames | src/Corker.Infrastructure/File/FileSystemService.cs:21 | plain names are kept by normalisation |
| Paths.ResolveRender | src/Corker.Infrastructure/File/FileSystemService.cs:21 | the names of a normal path are read back from its text |
| Paths.FullPathOfRender | src/Corker.Infrastructure/File/FileSystemService.cs:21 | `GetFullPath` leaves a normal path unchanged |
| Paths.FullPathIdempotent | src/Corker.Infrastructure/File/FileSystemService.cs:21 | `GetFullPath` is idempotent and its result absolute |
| Paths.FullPathHasOnlyNames | src/Corker.Infrastructure/File/FileSystemService.cs:21 | the full path is the rendering of plain names |
| Paths.SplitRenderNamesThen | src/Corker.Infrastructure/File/FileSystemService.cs:21 | rendered names, a separator and more text split into the names and the text's pieces |
| Paths.SplitNameThen | src/Corker.Infrastructure/File/FileSystemService.cs:21 | the same, after the leading separator |
| Paths.SplitFirstName | src/Corker.Infrastructure/File/FileSystemService.cs:21 | a name before a separator splits off first |
| Paths.SplitRestThen | src/Corker.Infrastructure/File/FileSystemService.cs:21 | the text after the first name splits into the other names and the text's pieces |
| Paths.RenderNotSlashEnded | src/Corker.Infrastructure/File/FileSystemService.cs:21 | a normal path other than the root does not end in the separator |
| FileSystem.SecurePath | src/Corker.Infrastructure/File/FileSystemService.cs:19-27 | the guard accepts iff the normalised combined path starts with the root, ignoring case; what it returns is normal and absolute |
| FileSystem.InOwnDirs | src/Corker.Infrastructure/File/FileSystemService.cs:62 | a normal path is among the directories that creating it brings into existence, which are the path and its ancestors |
| FileSystem.DirectoryName | src/Corker.Infrastructure/File/FileSystemService.cs:32 | definition of `Path.GetDirectoryName` of a normal path: its parent, or none for the root |
| FileSystem.DirsOf | src/Corker.Infrastructure/File/FileSystemService.cs:35 | definition of what `Directory.CreateDirectory` makes exist: the path and all its ancestors |
| FileSystem.IsUnder | src/Corker.Infrastructure/File/FileSystemService.cs:77 | definition of a file lying anywhere below a directory, the meaning of `SearchOption.AllDirectories` |
| FileSystem.NamesPathIsRelative | src/Corker.Infrastructure/File/FileSystemService.cs:21 | a path made of names is relative and not empty |
| FileSystem.CombineUnderRoot | src/Corker.Infrastructure/File/FileSystemService.cs:21 | combining a normal root with a relative path of names puts one separator between them |
| FileSystem.FullPathUnderRoot | src/Corker.Infrastructure/File/FileSystemService.cs:21 | that combination normalises to the root followed by the path's names |
| FileSystem.DescendantAccepted | src/Corker.Infrastructure/File/FileSystemService.cs:19-27 | a relative path of plain names is accepted, as the root followed by those names |
| FileSystem.NormalPathAcceptedIff | src/Corker.Infrastructure/File/FileSystemService.cs:19-27 | an absolute normal path is accepted iff its text starts with the root, ignoring case, and is then returned unchanged |
| FileSystem.SiblingAccepted | src/Corker.Infrastructure/File/FileSystemService.cs:22 | the guard is a case-insensitive text-prefix test: with root "/ws", the sibling "/WS2/a" is accepted |
| FileSystem.ParentEscapeRejected | src/Corker.Infrastructure/File/FileSystemService.cs:19-27 | "../etc" under "/ws" normalises to "/etc" and is denied |
| FileSystem.EscapeFullPath | src/Corker.Infrastructure/File/FileSystemService.cs:21 | "/ws/../etc" normalises to "/etc" |
| FileSystem.EscapeSplit | src/Corker.Infrastructure/File/FileSystemService.cs:21 | "/ws/../etc" splits into the root piece, "ws", ".." and "etc" |
| FileSystem.FileSystemService.constructor | src/Corker.Infrastructure/File/FileSystemService.cs:9-17 | the root is the full path of the configured one, created with its ancestors when missing |
| FileSystem.FileSystemService.WriteFile | src/Corker.Infrastructure/File/FileSystemService.cs:29-38 | a rejected path fails and changes nothing; otherwise the parent directory and its ancestors exist and the file holds exactly the content, other files unchanged |
| FileSystem.FileSystemService.ReadFile | src/Corker.Infrastructure/File/FileSystemService.cs:40-44 | a rejected path is denied; otherwise the file's text, or not found |
| FileSystem.FileSystemService.FileExists | src/Corker.Infrastructure/File/FileSystemService.cs:46-57 | true iff the guard accepts and the file exists: a rejected path is reported absent, not as an error |
| FileSystem.FileSystemService.CreateDirectory | src/Corker.Infrastructure/File/FileSystemService.cs:59-64 | a rejected path changes nothing; otherwise the directory and its ancestors exist; files never change |
| FileSystem.FileSystemService.ListFiles | src/Corker.Infrastructure/File/FileSystemService.cs:66-78 | a rejected path is denied; a missing directory gives nothing; otherwise exactly the files anywhere below it |
| FileSystem.WrittenFileAndParent | src/Corker.Infrastructure/File/FileSystemService.cs:32-37 | after a write the file holds exactly the content, its parent directory exists, and every other file is unchanged |

## Left out

- Character classes: `\s`, `\w`, `char.IsWhiteSpace` and the ignore-case comparison are their ASCII subsets. Unicode whitespace, letters and case mappings are not modelled.
- Line ends: the prompt's verbatim string is taken with `\n` line ends (`Coder.Prompt`). Matching is modelled for any reply text. The no-match lemmas (`FileBlocks.MatchesWithoutMarker`, `FileBlocks.MatchesOnlyMarkerAtStart`, `FileBlocks.BadTagNoBlock`) do not cover a reply written entirely with CRLF line ends, and no lemma states what such a reply gives.
- Text.RemoveAll: only proved on text free of the pattern and on one leading occurrence, not for occurrences in general.
- Text.IntToString: states only that the rendering is non-empty, and does not prove that it denotes `count`. Text.NatToString states that it is made of digits, not their value.
- Logging: the one `LogWarning` of src/Corker.Orchestrator/Agents/CoderAgent.cs:62 is modelled as the trace element `Warning(NoBlocksWarning)`. The `LogInformation` calls and the other warnings are not modelled. Neither are `async`/`Task` or the UI and host wiring. No modelled operation depends on them.
- The chat model, the text generator, `Guid.NewGuid()`, `DateTime.UtcNow`, `Directory.GetParent`, `Path.GetInvalidFileNameChars()` and the process results are parameters.
- The same clock reading `now` is used for all seed tasks, where the source reads the clock four times.
- `Guid.NewGuid()` is not assumed to be unique. Lookups take the first task with the id, and the lemmas state their hypotheses about fresh ids.
- LibGit2Sharp (`Repository.Init`, `Repository.Clone`, `CheckoutBranchAsync`, `CommitAndPushAsync`) is outside the model:
  - `Init` and `Clone` only set the current repository path;
  - the commit is the `Commit` call in the coder's trace;
  - `CheckoutBranchAsync` is not modelled.
- `GitWorktree` is not among the source files: its three properties are taken as strings that start empty. `string.IsNullOrEmpty(Path)` becomes `path != []`.
- `StartsWith(string)` for the porcelain keys is culture-sensitive in .NET. It is modelled as ordinal, which is how it behaves on these ASCII keys.
- File system errors other than access denied and a missing file (permissions, I/O failures, file locks) are not modelled. `Path.GetDirectoryName` is taken on normal absolute paths.
- `Path.GetFullPath` is modelled on absolute `/`-separated paths:
  - no drive letters, no `\`, no symbolic links;
  - a trailing separator is dropped, where .NET keeps it. It has two consequences:
    - A configured root "/ws/" becomes "/ws" in the model, so the model accepts "/ws2/a", which the source rejects because it does not start with "/ws/".
    - `WriteFileAsync("a/")` in the source creates "/ws/a" and then throws when writing to a directory path. `FileSystem.FileSystemService.WriteFile` stores a file at "/ws/a".
  - a `'\0'` in the path makes `GetFullPath` throw `ArgumentException`; the model accepts such a path like any other;
  - the relative default root "Workspace" is taken as already resolved against the current directory.
- `ListFilesAsync` returns a set: the order of `Directory.GetFiles` is not modelled.
- The settings service: the workspace root is a given absolute path. `FileSystemService` calls a `Get<T>` that its settings interface does not declare.
- The `_ => ...` arms of the two status switches in `BuildTaskCard` are not reachable with the four-value enum and are left out.
- Null strings are not modelled. Every text is a Dafny string.
- The seed lists are parameters (`SeedData`): the literal ideas, issues and roadmap groups are not modelled, and the lemmas only state where those lists go. The other seeded lists (GitLab issues, pull and merge requests, worktrees, terminals, changelog, agent tools, roadmap phases, context sources, memory items) are not modelled, and neither are their getters and the constant insight, settings and status records.
- `TryGenerateIdeasAsync`'s `parsed.Count == 0` branch returns an empty list, which equals the parsed result. The model returns the parsed list in both cases.
- The four-argument `AgentManager` constructor used by src/Corker.Tests/AgentLoopTests.cs:31 does not exist in the source's `AgentManager`, and that test's background loop does not exist either. Only the test's reply and its expected write are modelled: `Coder.AgentLoopTestReply`.
- Concurrency: the services keep plain lists with no locking. The model is sequential.
- Coder.CoderAgent.Execute: whether a write throws is a fixed function `writeFails` of the (path, content) pair. Two identical blocks in one reply therefore fail or succeed together. A failure caused by an earlier write, such as a file standing where a directory is needed, cannot be expressed.
