# VSGitBlame blame cache, modelled in Dafny

VSGitBlame is a Visual Studio extension that shows, beside the caret line, the
commit that last changed it. Its engine, `GitBlamer`, keeps one blame table
per file path. A lookup never waits. The first lookup of a path marks it
pending and starts `git blame --porcelain` in the background. When the output
arrives, the table is installed and `OnBlameFinished` is raised. Any file
action on the open document (a save, a reload, a rename) invalidates its
entry. This project models that cache and the `CommitInfo`
record it hands out, and proves how the cache moves between its three states
for a path: absent (no key), pending (key mapped to null), ready (key mapped
to a table).

Files:

- `commit_info.dfy`, module `Commits`: `CommitInfo` as a datatype with its
  default values, and the two sentinels `InProgress` and `Uncommitted`.
- `file_blame_info.dfy`, module `FileBlame`: the per-file table, kept abstract.
  It is a map from line number to commit, and `Empty` stands for a freshly
  constructed `FileBlameInfo`.
- `git_blamer.dfy`, module `Blamer`:
  - the cache as a value `Store`, holding the map and a ghost event log;
  - the transitions `Lookup`, `AfterGetBlame`, `AfterInvalidate`,
    `AfterComplete`, with `Step` and `Run` for sequences of calls;
  - the invariant `Consistent`, its preservation lemmas, and lemmas about
    these transitions;
  - the class `GitBlamer`, whose methods mutate the `cache` field and the
    ghost `log`, each proved to move the state as the matching transition
    function says.
- `scenarios.dfy`, module `BlamerScenarios`: concrete interleavings. Each one
  is written as a lemma over a trace of stores, and again as the same calls
  on one `GitBlamer` object.

`InitialiseFileAsync` is split at its `await` into two methods.
`GitBlamer.InitialiseFile` marks the path pending and launches the process.
`GitBlamer.Complete(path, exitCode, output)` is everything after the await,
and it takes the process's exit code and standard output as arguments. So an
invalidation or a lookup landing while `git blame` runs is just a call placed
between the two. The ghost log records three kinds of event:

- `Launched(p)`: a launch;
- `Notified(p)`: an `OnBlameFinished` notification;
- `Dropped(p)`: a result thrown away by the early return at line 56.

`InFlight(log, p)` counts the computations for `p` that are still running.
The invariant `Consistent` says this count is never negative. It also says
that a pending entry always has a running computation that will resolve it.

The bodies of `FileBlameInfo.Parse` and `FileBlameInfo.GetAt` are not part
of this model. Parsing is the function `parse: string -> Table`, fixed when a
`GitBlamer` is constructed. `GetAt` answers a line the table holds with that
line's commit. For any other line it answers the constant `OffTable`, which
the model leaves unconstrained: it may be a commit record or `None`, which
stands for a null reference. `GetAt` might also throw for such a line, and the
model does not represent an exception. The answers of `GetAt` and `GetBlame` have type
`Option<CommitInfo>` for that reason. The adornment checks `GetBlame`'s
result for null (CommitInfoAdornment.cs lines 63 and 103), so the callers allow
for a null answer.

Four behaviours of the code are easy to miss. The model follows the code in
each:

- A completion that finds its key gone returns at line 56, before
  `OnBlameFinished` is raised at line 64. So a dropped result is not
  notified, and not every launch is followed by a notification.
- The comment at line 54 says a result is thrown away when its file was
  invalidated while `git blame` ran. The test at line 55 asks only whether
  the key is present, not which computation put it there. If the path was
  invalidated and then looked up again, the older computation's result is
  still installed and notified (`OlderResultInstalledAfterRelaunch`).
- If those two computations finish in the other order, newer first and older
  last, the older output is installed last and stays. Neither of the two
  computations is still running. So unless one launched before the first
  lookup is still out, the path answers from that older table until its next
  invalidation (`OlderResultOutlivesNewer`).
- In those same traces two computations are in flight for one path at once.
  Between two invalidations of a path, though, at most one launch happens
  (`OneLaunchPerGeneration`).

## Model

| member | source | states |
|---|---|---|
| `Commits.FreshDefaults` | VSGitBlame.Core/CommitInfo.cs:10-15 | a new `CommitInfo` has ShowDetails true, empty hash, author name, author e-mail and summary, and the default time stamp |
| `Commits.InProgressFields` | VSGitBlame.Core/CommitInfo.cs:7 | `InProgress` has ShowDetails false and summary "Blame in progress.." |
| `Commits.UncommittedFields` | VSGitBlame.Core/CommitInfo.cs:8 | `Uncommitted` has ShowDetails false and summary "Uncommitted changes" |
| `Commits.SentinelsKeepDefaults` | VSGitBlame.Core/CommitInfo.cs:7-14 | both sentinels keep empty hash, author name and e-mail and the default time, since only ShowDetails and Summary are overridden |
| `Commits.SentinelsDistinct` | VSGitBlame.Core/CommitInfo.cs:7-8 | the two sentinels have different summaries, so they differ from each other and from a default record |
| `FileBlame.GetAt` | VSGitBlame/GitBlamer.cs:26 | a line the table holds answers its commit; any other line answers the fixed constant `OffTable`, whose value is not known because the body of `FileBlameInfo.GetAt` is not part of this model |
| `FileBlame.EmptyAnswersAlike` | VSGitBlame/GitBlamer.cs:58 | a table that was never parsed gives the same answer, `OffTable`, for every line |
| `Blamer.InFlightCountsCompletions` | VSGitBlame/GitBlamer.cs:37-64 | the number of running computations of a path equals its launches minus its notifications minus its dropped results |
| `Blamer.Lookup` | VSGitBlame/GitBlamer.cs:25-31 | GetBlame answers `GetAt(line)` of the table when the entry is ready, and `InProgress` (never null) when it is pending or absent |
| `Blamer.AfterLaunch` | VSGitBlame/GitBlamer.cs:37 | the launch step leaves the path pending (mapped to null) and appends exactly one `Launched` event; no other key changes |
| `Blamer.LaunchKeepsConsistent` | VSGitBlame/GitBlamer.cs:37 | the launch step preserves the invariant from any consistent store, whatever state the path was in |
| `Blamer.AfterGetBlame` | VSGitBlame/GitBlamer.cs:23-37 | after GetBlame the path is always present; a present path leaves the store unchanged; an absent one becomes pending with exactly one `Launched` event appended; no other key changes |
| `Blamer.AfterInvalidate` | VSGitBlame/GitBlamer.cs:17-20 | after InvalidateCache the path is absent whatever its state was; the log and every other key are unchanged |
| `Blamer.AfterComplete` | VSGitBlame/GitBlamer.cs:54-64 | an absent key leaves the cache unchanged and logs only the drop; a present key gets `parse(output)` if the exit code is 0 and the output is non-empty (the test at line 61, `Blamer.Succeeded`), else the empty table, plus exactly one notification |
| `Blamer.GetBlameKeepsConsistent` | VSGitBlame/GitBlamer.cs:25-37 | GetBlame preserves the invariant: nothing returns more often than it was launched, and every pending entry has a running computation |
| `Blamer.InvalidateKeepsConsistent` | VSGitBlame/GitBlamer.cs:17-20 | InvalidateCache preserves the invariant |
| `Blamer.CompleteKeepsConsistent` | VSGitBlame/GitBlamer.cs:54-64 | the completion of a running computation preserves the invariant, whether it installs or drops its result |
| `Blamer.ConsistentBoundsNotifications` | VSGitBlame/GitBlamer.cs:55-64 | in a consistent store a path is notified at most as often as it was launched, and strictly less often while it is pending |
| `Blamer.GetBlameOnReady` | VSGitBlame/GitBlamer.cs:25-26 | on a ready entry GetBlame returns that table's `GetAt(line)` and leaves the store unchanged |
| `Blamer.GetBlameOnPending` | VSGitBlame/GitBlamer.cs:25-26 | on a pending entry GetBlame returns `InProgress` and launches nothing |
| `Blamer.GetBlameOnAbsent` | VSGitBlame/GitBlamer.cs:25-37 | on an absent path GetBlame returns `InProgress`, leaves the path pending, and adds exactly one launch for it and none for any other path |
| `Blamer.InvalidateIdempotent` | VSGitBlame/GitBlamer.cs:17-20 | invalidating twice is the same as invalidating once |
| `Blamer.CompleteAfterInvalidation` | VSGitBlame/GitBlamer.cs:54-56 | a completion whose key is gone leaves the cache unchanged and notifies no path |
| `Blamer.CompleteOnPresent` | VSGitBlame/GitBlamer.cs:58-64 | a completion whose key is present leaves the path ready and notifies it exactly once and no other path; on success the path answers from the parsed table, otherwise it answers as the never-parsed empty table does and a lookup relaunches nothing |
| `Blamer.StepOnPath` | VSGitBlame/GitBlamer.cs:17-37 | one call other than invalidating `p` launches `p` exactly when it is a lookup of an absent `p`, and `p` is present afterwards exactly when it was present or was launched |
| `Blamer.OneLaunchPerGeneration` | VSGitBlame/GitBlamer.cs:17-37 | over any sequence of calls that does not invalidate `p`, `p` is launched once if it was absent and looked up, and never otherwise; it ends present exactly when it was present or looked up |
| `Blamer.ReadyEntryIsStable` | VSGitBlame/GitBlamer.cs:23-26 | over any sequence of calls whose only calls on `p` are lookups, a ready entry keeps its table, answers every line the same, and is not relaunched |
| `Blamer.GitBlamer.constructor` | VSGitBlame/GitBlamer.cs:14 | the cache starts empty, with an empty log, and satisfies the invariant |
| `Blamer.GitBlamer.InvalidateCache` | VSGitBlame/GitBlamer.cs:17-20 | removes the key in place, following `AfterInvalidate`, and keeps the invariant |
| `Blamer.GitBlamer.GetBlame` | VSGitBlame/GitBlamer.cs:23-32 | returns `Lookup` of the old state and moves the state as `AfterGetBlame` says, keeping the invariant |
| `Blamer.GitBlamer.InitialiseFile` | VSGitBlame/GitBlamer.cs:35-52 | sets the entry to pending and records one launch, as `AfterLaunch` says, keeping the invariant |
| `Blamer.GitBlamer.Complete` | VSGitBlame/GitBlamer.cs:54-65 | for a running computation, installs the empty table, then replaces it with `parse(output)` on success, or drops the result, as `AfterComplete` says, keeping the invariant |
| `BlamerScenarios.TwoLookupsLaunchOnce` | VSGitBlame/GitBlamer.cs:25-37 | two lookups of a fresh path with no completion between them both answer `InProgress` and cause exactly one launch |
| `BlamerScenarios.InvalidatedMidFlight` | VSGitBlame/GitBlamer.cs:17-56 | lookup, invalidate, then complete: the cache is as before, no path is notified, none of the computations the sequence started is still running, and the next lookup launches again |
| `BlamerScenarios.OlderResultInstalledAfterRelaunch` | VSGitBlame/GitBlamer.cs:17-64 | lookup, invalidate, lookup, then the first computation completes: its result is installed and notified while the second computation still runs |
| `BlamerScenarios.OlderResultOutlivesNewer` | VSGitBlame/GitBlamer.cs:17-64 | lookup, invalidate, lookup, then the newer computation completes and the older one last: the older output stays installed and answered from, a lookup relaunches nothing, the path was notified twice, and no computation the sequence started is still running |
| `BlamerScenarios.FailedRunIsCached` | VSGitBlame/GitBlamer.cs:25-62 | after a failed or empty run the path is ready with the empty table, answers every line as the never-parsed table does, and a lookup relaunches nothing |
| `BlamerScenarios.InvalidateAfterReady` | VSGitBlame/GitBlamer.cs:17-64 | after a successful run the path answers from the parsed table; after invalidation it answers `InProgress`, never the stale table, and the next lookup launches a second computation |
| `BlamerScenarios.TwoLookups` | VSGitBlame/GitBlamer.cs:25-37 | the same two lookups as calls on one `GitBlamer`: both answer `InProgress`, the path is pending, and it was launched once |
| `BlamerScenarios.InvalidateWhileRunning` | VSGitBlame/GitBlamer.cs:17-56 | the invalidated-mid-flight sequence on one `GitBlamer`: the cache is back as it was, the answer is `InProgress`, and no path is notified |
| `BlamerScenarios.RelaunchThenOlderCompletes` | VSGitBlame/GitBlamer.cs:17-64 | the relaunch sequence on one `GitBlamer`: the older result is installed and answered from, with one more computation running for the path than at the start |
| `BlamerScenarios.NewerThenOlderCompletes` | VSGitBlame/GitBlamer.cs:17-64 | the reversed completion order on one `GitBlamer`: the older output ends installed and answered from, with as many computations running for the path as at the start |
| `BlamerScenarios.LookupAfterFailedRun` | VSGitBlame/GitBlamer.cs:25-62 | a failed run on one `GitBlamer`: the next lookup answers as the never-parsed table does, the entry holds the empty table, and only one launch happened |
| `BlamerScenarios.LookupAfterInvalidation` | VSGitBlame/GitBlamer.cs:17-64 | a ready path on one `GitBlamer`: it answers from its table; invalidated and looked up again, it answers `InProgress`, is pending, and has been launched twice |

## Left out

- Starting `cmd /c git blame <path> --porcelain` and reading its standard output (GitBlamer.cs lines 39-52) is I/O. The exit code and the output are the arguments of `Complete`.
- If `process.Start()` threw, the entry would stay pending, with nothing running to resolve it, until the path is next invalidated (line 19 removes a null entry too), because the exception ends the task after line 37. The model launches without failing.
- `process.ExitCode` is read at line 61, once standard output ends, and the process may not have exited by then. Reading it then throws `InvalidOperationException`: the empty table installed at line 59 is never parsed, and no notification is sent. The model takes the exit code as known at completion, so that outcome is not captured.
- True concurrency is not modelled, nor is the per-key atomicity of `ConcurrentDictionary`. Calls run one at a time; interleavings are call orders at the await.
  - Not captured: two threads both passing the `TryGetValue` at line 25 for an absent path and launching twice.
  - Not captured: an invalidation landing between the key check at line 55 and the install at line 59.
  - Not captured: a lookup seeing the empty table between its install at line 59 and `Parse` at line 62. `Complete` does both in one call.
- `SynchronizationContext.Current` (line 28) is read and never used.
- `OnBlameFinished` is modelled as the ghost `Notified` event. Subscribers are not modelled. Neither is the `NullReferenceException` that `Invoke` raises at line 64 when nothing has subscribed; the table is already installed at that point.
- `FileBlameInfo.Parse` and the porcelain format it reads are not part of this model. Parse is an arbitrary function fixed per `GitBlamer`.
- `FileBlame.GetAt`: the answer for a line the table lacks is the unconstrained constant `OffTable`, since the body of `FileBlameInfo.GetAt` is not part of this model. So `FileBlame.EmptyAnswersAlike`, `Blamer.CompleteOnPresent`, `BlamerScenarios.FailedRunIsCached` and `BlamerScenarios.LookupAfterFailedRun` say that a failed run answers as the never-parsed table does, but not which value that is (`Uncommitted` or null; the adornment's null checks at CommitInfoAdornment.cs lines 63 and 103 allow either). `GetAt` might also throw for such a line, which the model does not represent.
- `CommitInfo` properties have public setters, and the sentinels are shared mutable objects. The model treats them as immutable values, and nothing in the core writes them.
- `DateTimeOffset Time` is an opaque pair (ticks, offset in minutes). No date arithmetic is done.
- The editor adornment, the WPF view factory (colours, gravatar MD5 URL, date formatting, hover state) and the options page are UI code outside the cache.
