# Patch overlay scripts, modelled in Dafny

This project models the three scripts that keep a set of sub-project
repositories (`Test_Big1`, `Test_Big2`) in step with an umbrella repository
through patch files kept under `<root>/overlay/`:

- `make_patches.py` exports each project's commits since its upstream as
  patch files into `<root>/overlay/<project>_patches`.
- `git_commit.py` commits every project with the caller's pass-through git
  flags, exports the patches, then commits the umbrella repository.
- `git_pull.py` pulls the umbrella repository, then, project by project,
  replays the patches that are not yet applied. The applied-patch ledger
  (`overlay/applied_patches.json`) records, per project, the path of the last
  patch applied.

Every external command (`git pull`, the tracking-branch query `rev-parse @{u}`,
`git am --3way`, `format-patch`, `git commit`) and every ledger-file write is
an `Effect` appended to the trace of a `Shell` object. The replies come from a
fixed function `run: Effect -> Reply`, which gives the output lines and the
exit code. A directory listing is an input map from directory path to its
entries; an absent key is a directory that cannot be listed. The ledger file
is an input `Option<map<string, string>>`, where `None` means the file is
absent. An exception that ends a script is an `Error` value.

Each script has a specification function over values: `Pull.PullSpec`,
`Pull.ProjectStep` and `Pull.ApplyFirst`; `Commit.CommitScript`; and
`Patches.MakeAll`. The imperative code is written as methods: the
`use_patches` scan over the shared in-place ledger, the loop in
`load_applied_patches`, the list comprehensions in `main`, and `make_commit`
building its argument list. Each method is proved to issue exactly the
effects, and leave exactly the state, that its specification function gives.
The lemmas state what the scripts promise about those functions.

Modules:
- `Wrappers`: Option and Result.
- `Text`: the `.patch` suffix test, Python's `str` ordering, and `sorted`.
- `Git`: what the scripts share.
- `Patches`: `make_patches.py`.
- `Pull`: `git_pull.py`.
- `Commit`: `git_commit.py`.

Behaviour of the scripts worth knowing:
- The ledger file is written once per project, after that project's scan
  (git_pull.py:75-76), not after every applied patch.
- A failed `git am` does not stop the scan, and the ledger entry still moves
  to that patch (git_pull.py:72-73).
- `make_commit` raises on every non-zero exit, including git's "nothing to
  commit" outcome (git_commit.py:51-53). A clean tree therefore ends
  git_commit.py.
- The umbrella commit stages nothing first (git_commit.py:84).
- A non-empty ledger entry that is not among the listed patch paths causes
  nothing to be applied, and the entry is kept (git_pull.py:64-70). Renamed
  or regenerated patches are therefore silently skipped, not reprocessed.
- `use_patches` resolves the upstream only to log it. An empty query output
  still raises, at `output[0]` (git_pull.py:51-52).
- The command runner merges stderr into the output it returns (git_pull.py:21,
  make_patches.py:21, git_commit.py:20). So a failing tracking-branch query
  that prints an error line has that line taken as the upstream; only a
  query that prints nothing at all raises (`NoQueryOutput`).

## Model

| member | source | states |
|---|---|---|
| Text.EndsWith | git_pull.py:60 | definition of `str.endswith`; used by PatchNames |
| Text.LexLe | git_pull.py:60 | definition of Python's `<=` on `str`; properties in LexLeTotal, LexLeTransitive, Sort |
| Git.ProjectDir | git_pull.py:51 | definition of `<root>/<project>`; used by FormatPatchCommand, CommitArgv |
| Git.PatchDir | git_pull.py:59 | definition of `<root>/overlay/<project>_patches`; properties in PatchPaths, FormatPatchCommand |
| Git.LedgerPath | git_pull.py:104 | definition of `<root>/overlay/applied_patches.json`; properties in PullWritesLedgerLast |
| Git.Join | git_pull.py:61 | definition of `os.path.join` for a plain name; properties in JoinInjective, PatchPaths |
| Patches.MakeAll | make_patches.py:61 | definition of the export loop; properties in MakeAllFailsIffQuerySilent, MakeAllWithOverride, FormatPatchExitIgnored, MakeAllSticks |
| Pull.ResumedEntry | git_pull.py:73 | definition of the entry after the scan; properties in ResumedEntryIsFinalPatch, ResumeAfterUnique, ResumeIdempotent, Replay |
| Pull.ProjectStep | git_pull.py:47-76 | definition of use_patches as a value; properties in ProjectStepProceeds, ProjectStepOutcome, ProjectStepIgnoresAmReplies, UsePatches |
| Pull.Ledger | git_pull.py:105-106 | the shared `applied_patches` dict, updated in place; its updates are stated by Replay, UsePatches, UseAllPatches |
| Pull.ApplyFirst | git_pull.py:106 | definition of the first n projects over one ledger; properties in FailureSticks, ApplyNextReady, ApplyNextEntries, ApplyFirstLedger, ApplyFirstReady, UseNext |
| Pull.ApplyUpTo | git_pull.py:106 | definition behind ApplyFirst; properties in the ApplyFirst lemmas |
| Pull.StepAt | git_pull.py:106 | definition of project k's step over the ledger the earlier projects left; properties in ApplyNextReady, ApplyNextEntries |
| Pull.ApplyAll | git_pull.py:106 | definition of every project in order; properties in UseAllPatches, RunAgainNoop, RunResumesEach |
| Pull.LoadedLedger | git_pull.py:105 | definition of the ledger main loads; properties in LoadAppliedPatches, DefaultLedger |
| Commit.AddsMessage | git_commit.py:79 | definition of the condition for the added message flag; properties in GitCommands, GitCommandsCarryMessage |
| Commit.CommitEach | git_commit.py:82 | definition of the project commits; properties in CommitEachSticks, CommitEachFailsIff, CommitEachIssued, CommitProjects |
| Commit.CommitScript | git_commit.py:82-84 | definition of main; properties in ScriptOrder, SuccessMeansEveryCommitSucceeded, FirstCommitFailureAborts, ConfiguredRunOrder, CommitAndMakePatches |
| Text.Sort | git_pull.py:60 | `sorted` on names: the result is ascending in Python's code-point order and is a permutation of the input |
| Text.SortDistinct | git_pull.py:60 | sorting a listing of unique names gives unique names |
| Git.Then | git_commit.py:82-84 | a step after one that raised does not run; otherwise the effects of both steps are joined in order and the second step's outcome is kept |
| Git.Shell.Execute | git_pull.py:14-38 | running a command appends it to the trace and hands back the runner's lines and exit code |
| Git.UpstreamQueries | git_pull.py:49-51 | the tracking-branch query is issued exactly when there is no override |
| Git.ResolveUpstream | git_pull.py:48-55 | a non-empty override is used verbatim; otherwise the upstream is the first output line of the query, and empty output raises `NoQueryOutput` whatever the exit code |
| Git.OverrideIgnoresQuery | make_patches.py:41-47 | with an override, the upstream does not depend on any query answer and no query is issued |
| Git.GetUpstream | git_commit.py:56-63 | the method issues the query only without an override and returns ResolveUpstream's value |
| Patches.FormatPatchCommand | make_patches.py:50 | format-patch runs in `<root>/<project>`, uses the upstream as its range and always writes to `<root>/overlay/<project>_patches` |
| Patches.MakePatches | make_patches.py:39-50 | one project raises exactly when there is no override and the query prints nothing; then only the query was issued, and otherwise the query (if any) is followed by format-patch against the resolved upstream |
| Patches.MakePatchesForAll | make_patches.py:61 | the script exports Test_Big1, then Test_Big2; it raises exactly when there is no override and either query prints nothing, and a silent Test_Big1 query stops it before Test_Big2 |
| Patches.MakeAllFailsIffQuerySilent | make_patches.py:43-44 | the export raises exactly when there is no override and some project's tracking query prints nothing |
| Patches.MakeAllWithOverride | make_patches.py:46-50 | with an override: no query, and one format-patch per project, in order, against the override |
| Patches.FormatPatchExitIgnored | make_patches.py:34-37 | format-patch replies never change the commands issued or the outcome, because its exit code is only logged |
| Pull.PatchNames | git_pull.py:60 | exactly the listing entries ending in `.patch`, unique when the listing is |
| Pull.PatchFiles | git_pull.py:60 | the `.patch` entries, ascending, unique when the listing is |
| Pull.PatchPaths | git_pull.py:59-61 | one path per sorted patch file: the patch directory joined with the file name, in the same order |
| Pull.PatchPathsOrdered | git_pull.py:59-61 | the patch paths are ascending, unique when the listing is, and never "" |
| Pull.After | git_pull.py:66-70 | an entry absent from the list leaves nothing to apply |
| Pull.AfterIsSuffix | git_pull.py:66-72 | the patches after the recorded one are a tail of the list |
| Pull.ToApply | git_pull.py:64-72 | an empty entry applies every patch in list order; a non-empty entry not in the list applies none |
| Pull.ResumedEntryIsFinalPatch | git_pull.py:73 | after the scan the entry is the list's last path if anything was applied, else the old entry |
| Pull.ResumeAfter | git_pull.py:66-72 | an entry equal to the k-th path (its first occurrence) skips patches 0..k and applies exactly k+1..n-1, in order |
| Pull.ResumeAfterUnique | git_pull.py:66-73 | the same for unique paths, and the entry ends at the last path |
| Pull.ScanStep | git_pull.py:66-73 | one turn of the scan: patch i is applied and recorded exactly when nothing was recorded or the recorded patch lies before it |
| Pull.ResumeIdempotent | git_pull.py:64-73 | scanning again from the resulting entry applies nothing and keeps the entry |
| Pull.AmCommands | git_pull.py:72 | one `git am --3way` per patch, in the given order |
| Pull.ProjectStepProceeds | git_pull.py:47-76 | when all lookups succeed, one project issues the query (if any), then `git am` for each patch to apply, then one ledger write; only its own entry moves |
| Pull.ProjectStepOutcome | git_pull.py:52-63 | use_patches raises exactly when the upstream is unresolvable, the patch directory is missing or the project has no ledger entry; a raise leaves the ledger alone after only the query; the ledger keys never change |
| Pull.ProjectStepIgnoresAmReplies | git_pull.py:72-73 | the outcome of a project does not depend on what `git am` answers |
| Pull.Replay | git_pull.py:63-73 | the in-place scan issues exactly ToApply's `git am` commands and moves only this project's entry, to ResumedEntry |
| Pull.UsePatches | git_pull.py:47-76 | use_patches as a method: the effects, the ledger and the raise are those of ProjectStep |
| Pull.DefaultLedger | git_pull.py:80-85 | an absent ledger file gives exactly the configured projects as keys, each mapped to "" |
| Pull.LoadAppliedPatches | git_pull.py:78-91 | the loop builds the default ledger when the file is absent and returns the stored mapping otherwise |
| Pull.PullSpec | git_pull.py:40-45 | the umbrella pull is issued first, and a failed pull raises before anything else runs |
| Pull.UseAllPatches | git_pull.py:106 | the projects in order over one shared ledger, stopping at the first raise, exactly as ApplyAll gives |
| Pull.UseNext | git_pull.py:106 | one more project extends the trace and the ledger from ApplyFirst(i) to ApplyFirst(i+1) |
| Pull.PullWithPatches | git_pull.py:93-106 | main issues PullSpec's effects and raises PullSpec's error |
| Pull.FailureSticks | git_pull.py:106 | once a project raises, the later projects never run |
| Pull.FailureSticksBack | git_pull.py:106 | a run that got past n projects got past the first n-1 |
| Pull.ApplyNextReady | git_pull.py:106 | after n-1 successful projects, project n goes through exactly when its upstream, patch directory and ledger entry are all there |
| Pull.ApplyNextEntries | git_pull.py:63-73 | when it goes through, only its entry moves, to where its resume ends |
| Pull.Settled | git_pull.py:73 | moving entries one project at a time keeps the ledger's keys |
| Pull.SettledUntouched | git_pull.py:73 | an entry no processed project owns is left as it was |
| Pull.SettledEntry | git_pull.py:73 | with distinct projects, each processed project's entry is moved once, from its loaded value |
| Pull.ApplyFirstLedger | git_pull.py:63-73 | a run that raised nothing leaves the ledger as Settled describes |
| Pull.ApplyFirstReady | git_pull.py:52-63 | a run that raised nothing found every project's upstream, patch directory and ledger entry |
| Pull.ApplyFirstIgnoresAmReplies | git_pull.py:72-73 | the whole run's commands, ledger and outcome do not depend on `git am` replies |
| Pull.SettledStep | git_pull.py:64-76 | a project whose entry is where its resume ended is a no-op: no `git am`, ledger unchanged |
| Pull.ApplyNextNoop | git_pull.py:106 | a no-op project after no-op projects keeps the run a no-op |
| Pull.NoopRun | git_pull.py:106 | a run over no-op projects raises nothing, applies nothing and keeps the ledger |
| Pull.SettledNoop | git_pull.py:64-76 | over the ledger a successful run wrote, each project is a no-op |
| Pull.SettledAllNoop | git_pull.py:106 | the same for every project |
| Pull.RunAgainNoop | git_pull.py:64-76 | a second pass over the written ledger raises nothing, applies nothing and leaves the ledger unchanged |
| Pull.PullTwice | git_pull.py:93-106 | running the script again with the ledger the first run wrote (the mapping of its last write, by PullWritesLedgerLast) pulls again but applies no patch and keeps every entry |
| Pull.ApplyFirstWritesLast | git_pull.py:75-76 | a successful run over at least one project ends with the write of its final in-memory ledger |
| Pull.PullWritesLedgerLast | git_pull.py:75-76 | the last effect of a successful git_pull.py run is the ledger-file write of the mapping ApplyAll ends with |
| Pull.RunResumesEach | git_pull.py:63-73 | a successful run moves each project's entry to where resuming from its loaded entry ends |
| Pull.ResumedFromEmpty | git_pull.py:64-73 | resuming from "" ends at the last patch, or stays "" without patches |
| Pull.FreshPullEndsAtLastPatch | git_pull.py:80-85 | without a ledger file, a successful run leaves each project at the path of its last sorted patch, or "" |
| Commit.Quoted | git_commit.py:80 | the message wrapped in one pair of double quotes |
| Commit.GitCommands | git_commit.py:78-80 | the pass-through flags unchanged and in order; `-m "<message>"` is appended exactly when the message is non-empty and neither `-m` nor `--message` is among them |
| Commit.AssembleGitCommands | git_commit.py:78-80 | the copy-then-extend construction yields GitCommands |
| Commit.GitCommandsCarryMessage | git_commit.py:79-80 | with a non-empty message, the flags always carry a message flag, the caller's or the added one |
| Commit.CommitArgv | git_commit.py:45-49 | `git`, then `-C <root>/<project>` only for a project, then `commit`, then the flags |
| Commit.CommitStep | git_commit.py:51-53 | one commit is issued, and any non-zero exit raises `CommitFailed` with that code |
| Commit.MakeCommit | git_commit.py:39-53 | make_commit issues CommitStep's command and raises its error |
| Commit.CommitEachSticks | git_commit.py:82 | once a project commit raises, the later projects are not committed |
| Commit.MakeAllSticks | git_commit.py:83 | once a project export raises, the later projects are not exported |
| Commit.CommitProjects | git_commit.py:82 | the commit comprehension issues exactly CommitEach's commands and raises its error |
| Commit.MakeProjectPatches | git_commit.py:55-66 | git_commit.py's make_patches issues the same commands and raises the same error as make_patches.py's |
| Commit.MakeEachPatches | git_commit.py:83 | the export comprehension issues exactly MakeAll's commands and raises its error |
| Commit.CommitAndMakePatches | git_commit.py:68-84 | main issues CommitScript's effects, with the assembled flags, and raises its error |
| Commit.CommitEachFailsIff | git_commit.py:52-53 | the project commits go through exactly when every one of them exits with 0 |
| Commit.CommitEachIssued | git_commit.py:82 | when they go through, one commit per project was issued, in project order |
| Commit.ScriptOrder | git_commit.py:82-84 | a successful run issues the project commits, then every export, then the umbrella commit, which has no `-C` |
| Commit.SuccessMeansEveryCommitSucceeded | git_commit.py:51-53 | a successful run means every commit, the umbrella's included, exited with 0 and every export succeeded |
| Commit.FirstCommitFailureAborts | git_commit.py:82-84 | a first commit that exits non-zero (a clean tree included) ends the script: no export, no umbrella commit |
| Commit.ConfiguredRunOrder | git_commit.py:11 | with the configured projects, an override and all exits 0: commit Test_Big1, commit Test_Big2, export Test_Big1, export Test_Big2, umbrella commit |

## Left out

- `execute_cmd`: how the command line is joined with spaces and run by a shell, the live output streaming, and the logging. A command is an `Effect` carrying its parts, and a `git commit` carries its argument list before the join.
- Shell quoting: the quotes around the message are modelled as characters of the argument, not as shell syntax.
- All logging, `print` and traceback output, and the top-level exception handlers. A raise is an `Error` value.
- JSON reading and writing of the ledger file. A corrupt file, and values that are not strings, are not modelled; a write is a `WriteLedger` effect carrying the whole mapping.
- `os.listdir` errors other than a directory that cannot be listed; a listing is an input and is assumed to hold unique names where a lemma says so.
- `pathlib` normalisation: paths are joined with "/" as plain strings.
- argparse: `--path`, `--upstream`, `-m` and the pass-through arguments are parameters. How argparse itself consumes `-m` before the pass-through arguments are split off is not modelled.
- The working directory default for `--path`.
- scripts/init_environment.py is not part of this model: it only clones missing repositories.
- What git does: pull, am, format-patch and commit are opaque effects whose replies come from `run`. The patch files that format-patch writes are not linked to the listings that git_pull.py reads.
- The configured project list is a parameter of the script-level members. `Git.Projects` and the lemmas on it fix the two configured projects.
- Pull.PullTwice, Pull.RunAgainNoop, Pull.SettledNoop, Pull.SettledAllNoop: require distinct projects and listings without repeated names, which the configured list and `os.listdir` provide.
- Pull.SettledEntry, Pull.RunResumesEach, Pull.FreshPullEndsAtLastPatch: require distinct projects, as the configured list is.
