/**
 * Replaying patch series after an umbrella pull (git_pull.py).
 *
 * For each project the applier lists its patch directory, keeps the
 * `.patch` files in sorted order, skips everything up to and including the
 * patch the ledger records, applies the rest with `git am --3way`, and
 * records each applied patch in the in-memory ledger. The whole ledger is
 * written to its file once, after the project's loop.
 */
module Pull {
  import opened Wrappers
  import opened Text
  import opened Git

  // ---------------------------------------------------------------------
  // The patch list of one project

  /** The listing entries whose name ends in `.patch`, in listing order. */
  function PatchNames(listing: seq<string>): (r: seq<string>)
    ensures forall x :: x in r <==> x in listing && EndsWith(x, ".patch")
    ensures Distinct(listing) ==> Distinct(r)
    decreases |listing|
  {
    if listing == [] then []
    else
      var rest := PatchNames(listing[1..]);
      if EndsWith(listing[0], ".patch") then [listing[0]] + rest else rest
  }

  /** `sorted(f for f in os.listdir(patch_dir) if f.endswith(".patch"))` */
  function PatchFiles(listing: seq<string>): (r: seq<string>)
    ensures Ascending(r)
    ensures forall x :: x in r <==> x in listing && EndsWith(x, ".patch")
    ensures Distinct(listing) ==> Distinct(r)
  {
    var names := PatchNames(listing);
    SortDistinct(names);
    var r := Sort(names);
    assert forall x :: x in r <==> x in multiset(r);
    assert forall x :: x in names <==> x in multiset(names);
    r
  }

  /** Prefixing both sides with the same string does not change their order. */
  lemma {:induction false} LexLeCommonPrefix(p: string, a: string, b: string)
    ensures LexLe(p + a, p + b) == LexLe(a, b)
    decreases |p|
  {
    if p != [] {
      var pa, pb := p + a, p + b;
      assert pa[0] == p[0] == pb[0] && |pa| > 0 && |pb| > 0;
      assert pa[1..] == p[1..] + a;
      assert pb[1..] == p[1..] + b;
      assert LexLe(pa, pb) == LexLe(pa[1..], pb[1..]);
      LexLeCommonPrefix(p[1..], a, b);
    } else {
      assert p + a == a && p + b == b;
    }
  }

  lemma JoinInjective(dir: string, a: string, b: string)
    requires Join(dir, a) == Join(dir, b)
    ensures a == b
  {
    assert Join(dir, a)[|dir| + 1..] == a;
    assert Join(dir, b)[|dir| + 1..] == b;
  }

  /** The paths of a project's patches, `os.path.join(patch_dir, f)` for each sorted patch file `f`. */
  function PatchPaths(root: string, project: string, listing: seq<string>): (r: seq<string>)
    ensures |r| == |PatchFiles(listing)|
    ensures forall i :: 0 <= i < |r| ==> r[i] == Join(PatchDir(root, project), PatchFiles(listing)[i])
  {
    var files := PatchFiles(listing);
    seq(|files|, i requires 0 <= i < |files| => Join(PatchDir(root, project), files[i]))
  }

  /**
   * The patch paths lie under the patch directory, ascend in the order
   * `sorted` gives the file names, and are unique when the listing is.
   */
  lemma PatchPathsOrdered(root: string, project: string, listing: seq<string>)
    ensures Ascending(PatchPaths(root, project, listing))
    ensures Distinct(listing) ==> Distinct(PatchPaths(root, project, listing))
    ensures "" !in PatchPaths(root, project, listing)
  {
    var dir := PatchDir(root, project);
    var files := PatchFiles(listing);
    var r := PatchPaths(root, project, listing);
    forall i, j | 0 <= i < j < |r|
      ensures LexLe(r[i], r[j])
      ensures files[i] != files[j] ==> r[i] != r[j]
    {
      assert r[i] == (dir + "/") + files[i];
      assert r[j] == (dir + "/") + files[j];
      LexLeCommonPrefix(dir + "/", files[i], files[j]);
      if r[i] == r[j] {
        JoinInjective(dir, files[i], files[j]);
      }
    }
    assert forall i :: 0 <= i < |r| ==> |r[i]| > 0;
  }

  // ---------------------------------------------------------------------
  // Where the replay resumes

  /** The patches after the first occurrence of `last`; none when `last` is absent. */
  function After(paths: seq<string>, last: string): (r: seq<string>)
    ensures last !in paths ==> r == []
    decreases |paths|
  {
    if paths == [] then []
    else if paths[0] == last then paths[1..]
    else After(paths[1..], last)
  }

  /** What follows the recorded patch is a tail of the list. */
  lemma {:induction false} AfterIsSuffix(paths: seq<string>, last: string)
    ensures |After(paths, last)| <= |paths|
    ensures After(paths, last) == paths[|paths| - |After(paths, last)|..]
    decreases |paths|
  {
    if paths != [] && paths[0] != last {
      var rest := After(paths[1..], last);
      AfterIsSuffix(paths[1..], last);
      assert paths[1..][|paths| - 1 - |rest|..] == paths[|paths| - |rest|..];
    }
  }

  /**
   * The patches one run applies, given the ledger entry `last`: all of them
   * when nothing is recorded, otherwise the ones after the recorded patch.
   * Always a suffix of the list.
   */
  function ToApply(paths: seq<string>, last: string): (r: seq<string>)
    ensures last == "" ==> r == paths
    ensures last != "" && last !in paths ==> r == []
  {
    if last == "" then paths else After(paths, last)
  }

  /**
   * The ledger entry after the run: the last patch applied, or the previous
   * entry when nothing was applied.
   */
  function ResumedEntry(paths: seq<string>, last: string): string {
    var todo := ToApply(paths, last);
    if todo == [] then last else todo[|todo| - 1]
  }

  /** When anything is applied, the entry ends at the final patch of the list; otherwise it stays. */
  lemma ResumedEntryIsFinalPatch(paths: seq<string>, last: string)
    ensures ToApply(paths, last) == [] ==> ResumedEntry(paths, last) == last
    ensures ToApply(paths, last) != [] ==> ResumedEntry(paths, last) == paths[|paths| - 1]
  {
    if last != "" {
      AfterIsSuffix(paths, last);
    }
  }

  /** The recorded patch is the k-th (its first occurrence): exactly the patches after it are applied, in order. */
  lemma {:induction false} ResumeAfter(paths: seq<string>, k: nat)
    requires k < |paths| && paths[k] != ""
    requires paths[k] !in paths[..k]
    ensures ToApply(paths, paths[k]) == paths[k + 1..]
    decreases k
  {
    if k > 0 {
      assert paths[0] in paths[..k];
      assert paths[1..][..k - 1] == paths[..k][1..];
      ResumeAfter(paths[1..], k - 1);
    }
  }

  /** With unique paths, a ledger entry equal to the k-th path skips patches 0..k and applies k+1..n-1. */
  lemma ResumeAfterUnique(paths: seq<string>, k: nat)
    requires Distinct(paths) && "" !in paths && k < |paths|
    ensures ToApply(paths, paths[k]) == paths[k + 1..]
    ensures ResumedEntry(paths, paths[k]) == paths[|paths| - 1]
  {
    ResumeAfter(paths, k);
  }

  /** Extending the list by one patch extends what is applied by it exactly when the recorded patch was already passed. */
  lemma {:induction false} AfterSnoc(s: seq<string>, x: string, last: string)
    ensures After(s + [x], last) == if last in s then After(s, last) + [x] else []
    decreases |s|
  {
    if s == [] {
      assert [x][1..] == [];
    } else {
      assert (s + [x])[1..] == s[1..] + [x];
      if s[0] == last {
        assert (s + [x])[1..] == s[1..] + [x];
      } else {
        AfterSnoc(s[1..], x, last);
        assert last in s <==> last in s[1..];
      }
    }
  }

  /** One step of the scan: patch `i` is applied exactly when the recorded patch lies before it (or nothing is recorded). */
  lemma ScanStep(paths: seq<string>, i: nat, last: string)
    requires i < |paths|
    ensures (last in paths[..i + 1]) == (last in paths[..i] || paths[i] == last)
    ensures ToApply(paths[..i + 1], last) ==
      ToApply(paths[..i], last) + (if last == "" || last in paths[..i] then [paths[i]] else [])
    ensures ResumedEntry(paths[..i + 1], last) ==
      if last == "" || last in paths[..i] then paths[i] else ResumedEntry(paths[..i], last)
  {
    assert paths[..i + 1] == paths[..i] + [paths[i]];
    if last != "" {
      AfterSnoc(paths[..i], paths[i], last);
    }
  }

  /** A second run with the resulting entry applies nothing and leaves the entry as it is. */
  lemma ResumeIdempotent(paths: seq<string>, last: string)
    requires Distinct(paths) && "" !in paths
    ensures ToApply(paths, ResumedEntry(paths, last)) == []
    ensures ResumedEntry(paths, ResumedEntry(paths, last)) == ResumedEntry(paths, last)
  {
    ResumedEntryIsFinalPatch(paths, last);
    if ToApply(paths, last) != [] {
      ResumeAfterUnique(paths, |paths| - 1);
    }
  }

  // ---------------------------------------------------------------------
  // One project (use_patches)

  /** `git -C <repo> am --3way <p>` for each patch, in order. */
  function AmCommands(repo: string, patches: seq<string>): (r: seq<Effect>)
    ensures |r| == |patches|
    ensures forall i :: 0 <= i < |r| ==> r[i] == ApplyPatch(repo, patches[i])
  {
    seq(|patches|, i requires 0 <= i < |patches| => ApplyPatch(repo, patches[i]))
  }

  /** What one step leaves behind: the effects, the in-memory ledger, and the error it raised. */
  datatype Step = Step(effects: seq<Effect>, entries: map<string, string>, failure: Option<Error>)

  /**
   * use_patches for one project as a value: upstream resolution (whose
   * result is only logged), the directory listing, the ledger lookup, the
   * replay and the single ledger write. The replies to `git am` are never
   * consulted.
   */
  function ProjectStep(root: string, override: string, run: Effect -> Reply, project: string,
                       dirs: map<string, seq<string>>, entries: map<string, string>): (s: Step)
  {
    var repo := ProjectDir(root, project);
    var dir := PatchDir(root, project);
    var queries := UpstreamQueries(override, repo);
    if ResolveUpstream(override, repo, run).Failure? then
      Step(queries, entries, Some(ResolveUpstream(override, repo, run).error))
    else if dir !in dirs then
      Step(queries, entries, Some(MissingPatchDir(dir)))
    else if project !in entries then
      Step(queries, entries, Some(NotInLedger(project)))
    else
      var paths := PatchPaths(root, project, dirs[dir]);
      var updated := entries[project := ResumedEntry(paths, entries[project])];
      Step(queries + AmCommands(repo, ToApply(paths, entries[project])) + [WriteLedger(LedgerPath(root), updated)], updated, None)
  }

  /** The value of ProjectStep when every lookup succeeds. */
  lemma ProjectStepProceeds(root: string, override: string, run: Effect -> Reply, project: string,
                            dirs: map<string, seq<string>>, entries: map<string, string>)
    requires ResolveUpstream(override, ProjectDir(root, project), run).Success?
    requires PatchDir(root, project) in dirs && project in entries
    ensures var paths := PatchPaths(root, project, dirs[PatchDir(root, project)]);
      var updated := entries[project := ResumedEntry(paths, entries[project])];
      ProjectStep(root, override, run, project, dirs, entries) ==
        Step(UpstreamQueries(override, ProjectDir(root, project)) +
             AmCommands(ProjectDir(root, project), ToApply(paths, entries[project])) + [WriteLedger(LedgerPath(root), updated)],
             updated, None)
  {
  }

  /**
   * use_patches raises exactly when the upstream cannot be resolved, the
   * patch directory is missing or the project has no ledger entry; when it
   * raises it has issued only the upstream query and left the ledger alone.
   */
  lemma ProjectStepOutcome(root: string, override: string, run: Effect -> Reply, project: string,
                           dirs: map<string, seq<string>>, entries: map<string, string>)
    ensures var s := ProjectStep(root, override, run, project, dirs, entries);
      s.failure.None? <==>
        ResolveUpstream(override, ProjectDir(root, project), run).Success? &&
        PatchDir(root, project) in dirs && project in entries
    ensures var s := ProjectStep(root, override, run, project, dirs, entries);
      s.failure.Some? ==> s.entries == entries && s.effects == UpstreamQueries(override, ProjectDir(root, project))
    ensures ProjectStep(root, override, run, project, dirs, entries).entries.Keys == entries.Keys
  {
  }

  /** Sequence concatenation regrouped, four parts. */
  lemma AppendAssoc(a: seq<Effect>, b: seq<Effect>, c: seq<Effect>, d: seq<Effect>)
    ensures a + (b + c + d) == a + b + c + d
  {
  }

  /** Two runners that answer the tracking-branch queries alike: whatever else they answer is never consulted. */
  ghost predicate SameQueries(run1: Effect -> Reply, run2: Effect -> Reply) {
    forall repo :: run1(RevParseUpstream(repo)) == run2(RevParseUpstream(repo))
  }

  /** The replies to `git am` are never consulted: a patch that fails to apply is still recorded. */
  lemma ProjectStepIgnoresAmReplies(root: string, override: string, run1: Effect -> Reply, run2: Effect -> Reply,
                                    project: string, dirs: map<string, seq<string>>, entries: map<string, string>)
    requires SameQueries(run1, run2)
    ensures ProjectStep(root, override, run1, project, dirs, entries) ==
      ProjectStep(root, override, run2, project, dirs, entries)
  {
    var repo := ProjectDir(root, project);
    assert run1(RevParseUpstream(repo)) == run2(RevParseUpstream(repo));
  }

  /** The in-memory ledger shared by all projects of one run (the `applied_patches` dict). */
  class Ledger {
    var entries: map<string, string>

    constructor (entries: map<string, string>)
      ensures this.entries == entries
    {
      this.entries := entries;
    }
  }

  lemma AmCommandsSnoc(repo: string, patches: seq<string>, p: string)
    ensures AmCommands(repo, patches + [p]) == AmCommands(repo, patches) + [ApplyPatch(repo, p)]
  {
  }

  /**
   * The scan of use_patches over `paths`: skip until the patch recorded for
   * `project` has been passed (or from the start when nothing is recorded),
   * then apply each remaining patch and record it, whatever `git am` answers.
   */
  method Replay(sh: Shell, repo: string, project: string, paths: seq<string>, ledger: Ledger)
    requires project in ledger.entries
    modifies sh, ledger
    ensures var last := old(ledger.entries[project]);
      sh.effects == old(sh.effects) + AmCommands(repo, ToApply(paths, last)) &&
      ledger.entries == old(ledger.entries)[project := ResumedEntry(paths, last)]
  {
    var last := ledger.entries[project];
    var begin := last == "";
    ghost var before := sh.effects;
    ghost var entries0 := ledger.entries;
    ghost var applied: seq<string> := [];
    ghost var entry := last;
    assert entries0[project := last] == entries0;
    var i := 0;
    while i < |paths|
      invariant 0 <= i <= |paths|
      invariant begin == (last == "" || last in paths[..i])
      invariant applied == ToApply(paths[..i], last) && entry == ResumedEntry(paths[..i], last)
      invariant sh.effects == before + AmCommands(repo, applied)
      invariant ledger.entries == entries0[project := entry]
    {
      var patch := paths[i];
      ScanStep(paths, i, last);
      if !begin {
        if patch == last {
          begin := true;
        }
      } else {
        AmCommandsSnoc(repo, applied, patch);
        var _ := sh.Execute(ApplyPatch(repo, patch));
        ledger.entries := ledger.entries[project := patch];
        applied, entry := applied + [patch], patch;
      }
      i := i + 1;
    }
    assert paths[..i] == paths;
  }

  /** use_patches: replays one project's unapplied patches, records progress in `ledger`, then writes it. */
  method UsePatches(sh: Shell, root: string, override: string, project: string,
                    dirs: map<string, seq<string>>, ledger: Ledger) returns (failure: Option<Error>)
    modifies sh, ledger
    ensures var s := ProjectStep(root, override, sh.run, project, dirs, old(ledger.entries));
      sh.effects == old(sh.effects) + s.effects && ledger.entries == s.entries && failure == s.failure
  {
    var repo := ProjectDir(root, project);
    var upstream := GetUpstream(sh, override, repo);
    if upstream.Failure? {
      return Some(upstream.error);
    }
    var dir := PatchDir(root, project);
    if dir !in dirs {
      return Some(MissingPatchDir(dir));
    }
    var paths := PatchPaths(root, project, dirs[dir]);
    if project !in ledger.entries {
      return Some(NotInLedger(project));
    }
    ghost var last := ledger.entries[project];
    Replay(sh, repo, project, paths, ledger);
    var _ := sh.Execute(WriteLedger(LedgerPath(root), ledger.entries));
    ProjectStepProceeds(root, override, sh.run, project, dirs, old(ledger.entries));
    AppendAssoc(old(sh.effects), UpstreamQueries(override, repo), AmCommands(repo, ToApply(paths, last)),
                [WriteLedger(LedgerPath(root), ledger.entries)]);
    return None;
  }

  // ---------------------------------------------------------------------
  // The whole run (main)

  /**
   * The first `n` projects in order over one shared ledger, stopping at the
   * first error. ApplyUpTo and StepAt define it together; the rest of the
   * model states its properties through this function.
   */
  function ApplyFirst(root: string, override: string, run: Effect -> Reply, projects: seq<string>, n: nat,
                      dirs: map<string, seq<string>>, entries: map<string, string>): Step
    requires n <= |projects|
  {
    ApplyUpTo(root, override, run, projects, n, dirs, entries)
  }

  function ApplyUpTo(root: string, override: string, run: Effect -> Reply, projects: seq<string>, n: nat,
                     dirs: map<string, seq<string>>, entries: map<string, string>): Step
    requires n <= |projects|
    decreases n, 1
  {
    if n == 0 then Step([], entries, None)
    else
      var prev := ApplyUpTo(root, override, run, projects, n - 1, dirs, entries);
      if prev.failure.Some? then prev
      else
        var step := StepAt(root, override, run, projects, n - 1, dirs, entries);
        Step(prev.effects + step.effects, step.entries, step.failure)
  }

  /** The step of project `k`, over the ledger the `k` projects before it leave behind. */
  function StepAt(root: string, override: string, run: Effect -> Reply, projects: seq<string>, k: nat,
                  dirs: map<string, seq<string>>, entries: map<string, string>): Step
    requires k < |projects|
    decreases k + 1, 0
  {
    ProjectStep(root, override, run, projects[k], dirs, ApplyUpTo(root, override, run, projects, k, dirs, entries).entries)
  }

  /** All projects in order over one shared ledger, stopping at the first error. */
  function ApplyAll(root: string, override: string, run: Effect -> Reply, projects: seq<string>,
                    dirs: map<string, seq<string>>, entries: map<string, string>): Step
  {
    ApplyFirst(root, override, run, projects, |projects|, dirs, entries)
  }

  /** The ledger when its file is absent: every configured project, nothing applied. */
  function DefaultLedger(projects: seq<string>): (m: map<string, string>)
    ensures m.Keys == set p | p in projects
    ensures forall p :: p in m ==> m[p] == ""
  {
    map p | p in projects :: ""
  }

  /** load_applied_patches: the stored mapping, or one that maps every configured project to "" when the file is absent. */
  method LoadAppliedPatches(projects: seq<string>, ledgerFile: Option<map<string, string>>) returns (entries: map<string, string>)
    ensures ledgerFile.Some? ==> entries == ledgerFile.value
    ensures ledgerFile.None? ==> entries.Keys == set p | p in projects
    ensures ledgerFile.None? ==> forall p :: p in entries ==> entries[p] == ""
  {
    if ledgerFile.Some? {
      return ledgerFile.value;
    }
    entries := map[];
    for i := 0 to |projects|
      invariant entries.Keys == set p | p in projects[..i]
      invariant forall p :: p in entries ==> entries[p] == ""
    {
      assert projects[..i + 1] == projects[..i] + [projects[i]];
      entries := entries[projects[i] := ""];
    }
    assert projects[..|projects|] == projects;
  }

  /** The ledger as main loads it: the stored mapping, or the default one when the file is absent. */
  function LoadedLedger(projects: seq<string>, ledgerFile: Option<map<string, string>>): map<string, string> {
    if ledgerFile.Some? then ledgerFile.value else DefaultLedger(projects)
  }

  /** The whole of git_pull.py: the umbrella pull, then every project over the loaded ledger. */
  function PullSpec(root: string, override: string, projects: seq<string>, run: Effect -> Reply,
                    ledgerFile: Option<map<string, string>>, dirs: map<string, seq<string>>): (r: Run)
    ensures |r.issued| > 0 && r.issued[0] == Pull(root)
    ensures run(Pull(root)).code != 0 ==> r.issued == [Pull(root)] && r.failure.Some?
  {
    if run(Pull(root)).code != 0 then Run([Pull(root)], Some(PullFailed(run(Pull(root)).code)))
    else
      var s := ApplyAll(root, override, run, projects, dirs, LoadedLedger(projects, ledgerFile));
      Run([Pull(root)] + s.effects, s.failure)
  }

  /** `[use_patches(project, ...) for project in projects]`: every project in order over one ledger, until one raises. */
  method UseAllPatches(sh: Shell, root: string, override: string, projects: seq<string>,
                       dirs: map<string, seq<string>>, ledger: Ledger)
    returns (failure: Option<Error>)
    modifies sh, ledger
    ensures var s := ApplyAll(root, override, sh.run, projects, dirs, old(ledger.entries));
      sh.effects == old(sh.effects) + s.effects && ledger.entries == s.entries && failure == s.failure
  {
    ghost var loaded := ledger.entries;
    ghost var base := sh.effects;
    ghost var run := sh.run;
    var i := 0;
    while i < |projects|
      invariant 0 <= i <= |projects|
      invariant ApplyFirst(root, override, run, projects, i, dirs, loaded).failure.None?
      invariant sh.effects == base + ApplyFirst(root, override, run, projects, i, dirs, loaded).effects
      invariant ledger.entries == ApplyFirst(root, override, run, projects, i, dirs, loaded).entries
    {
      failure := UseNext(sh, root, override, projects, i, dirs, base, loaded, ledger);
      if failure.Some? {
        FailureSticks(root, override, run, projects, i + 1, |projects|, dirs, loaded);
        return;
      }
      i := i + 1;
    }
    failure := None;
  }

  /** One turn of the list comprehension in UseAllPatches: project `i` after the `i` before it. */
  method UseNext(sh: Shell, root: string, override: string, projects: seq<string>, i: nat,
                 dirs: map<string, seq<string>>, ghost base: seq<Effect>, ghost loaded: map<string, string>,
                 ledger: Ledger)
    returns (failure: Option<Error>)
    requires i < |projects|
    requires ApplyFirst(root, override, sh.run, projects, i, dirs, loaded).failure.None?
    requires sh.effects == base + ApplyFirst(root, override, sh.run, projects, i, dirs, loaded).effects
    requires ledger.entries == ApplyFirst(root, override, sh.run, projects, i, dirs, loaded).entries
    modifies sh, ledger
    ensures failure == ApplyFirst(root, override, sh.run, projects, i + 1, dirs, loaded).failure
    ensures sh.effects == base + ApplyFirst(root, override, sh.run, projects, i + 1, dirs, loaded).effects
    ensures ledger.entries == ApplyFirst(root, override, sh.run, projects, i + 1, dirs, loaded).entries
  {
    ghost var prev := ApplyFirst(root, override, sh.run, projects, i, dirs, loaded);
    failure := UsePatches(sh, root, override, projects[i], dirs, ledger);
    ghost var step := StepAt(root, override, sh.run, projects, i, dirs, loaded);
    AppendAssoc3(base, prev.effects, step.effects);
  }

  /**
   * main of git_pull.py over the configured `projects` (the scripts use
   * Git.Projects), with the ledger file's content (absent or a mapping) and
   * the directory listings as inputs.
   */
  method PullWithPatches(sh: Shell, root: string, override: string, projects: seq<string>,
                         ledgerFile: Option<map<string, string>>, dirs: map<string, seq<string>>)
    returns (failure: Option<Error>)
    modifies sh
    ensures var r := PullSpec(root, override, projects, sh.run, ledgerFile, dirs);
      sh.effects == old(sh.effects) + r.issued && failure == r.failure
  {
    var reply := sh.Execute(Pull(root));
    if reply.code != 0 {
      return Some(PullFailed(reply.code));
    }
    var loaded := LoadAppliedPatches(projects, ledgerFile);
    assert loaded == LoadedLedger(projects, ledgerFile);
    var ledger := new Ledger(loaded);
    failure := UseAllPatches(sh, root, override, projects, dirs, ledger);
    assert sh.effects == old(sh.effects) + ([Pull(root)] + ApplyAll(root, override, sh.run, projects, dirs, loaded).effects);
  }

  /** Once a prefix of the projects raises, the run ends there. */
  lemma {:induction false} FailureSticks(root: string, override: string, run: Effect -> Reply, projects: seq<string>,
                                         n: nat, m: nat, dirs: map<string, seq<string>>, entries: map<string, string>)
    requires n <= m <= |projects|
    requires ApplyFirst(root, override, run, projects, n, dirs, entries).failure.Some?
    ensures ApplyFirst(root, override, run, projects, m, dirs, entries) == ApplyFirst(root, override, run, projects, n, dirs, entries)
    decreases m
  {
    if n < m {
      FailureSticks(root, override, run, projects, n, m - 1, dirs, entries);
      assert ApplyFirst(root, override, run, projects, m - 1, dirs, entries).failure.Some?;
    }
  }

  // ---------------------------------------------------------------------
  // Properties of a whole run

  /**
   * One more project after `n - 1` that went through: it raises exactly
   * when use_patches on its own would, over the ledger the others left.
   */
  lemma ApplyNextReady(root: string, override: string, run: Effect -> Reply, projects: seq<string>,
                       n: nat, dirs: map<string, seq<string>>, entries: map<string, string>)
    requires 0 < n <= |projects|
    requires ApplyFirst(root, override, run, projects, n - 1, dirs, entries).failure.None?
    ensures var p := projects[n - 1];
      ApplyFirst(root, override, run, projects, n, dirs, entries).failure.None? <==>
        ResolveUpstream(override, ProjectDir(root, p), run).Success? && PatchDir(root, p) in dirs &&
        p in ApplyFirst(root, override, run, projects, n - 1, dirs, entries).entries
    ensures ApplyFirst(root, override, run, projects, n, dirs, entries).entries.Keys ==
      ApplyFirst(root, override, run, projects, n - 1, dirs, entries).entries.Keys
  {
    var prev := ApplyFirst(root, override, run, projects, n - 1, dirs, entries);
    assert StepAt(root, override, run, projects, n - 1, dirs, entries) ==
      ProjectStep(root, override, run, projects[n - 1], dirs, prev.entries);
    ProjectStepOutcome(root, override, run, projects[n - 1], dirs, prev.entries);
  }

  /** ... and when it goes through, only its own ledger entry moves, to where its resume ends. */
  lemma ApplyNextEntries(root: string, override: string, run: Effect -> Reply, projects: seq<string>,
                         n: nat, dirs: map<string, seq<string>>, entries: map<string, string>)
    requires 0 < n <= |projects|
    requires ApplyFirst(root, override, run, projects, n - 1, dirs, entries).failure.None?
    requires ApplyFirst(root, override, run, projects, n, dirs, entries).failure.None?
    ensures var prev := ApplyFirst(root, override, run, projects, n - 1, dirs, entries).entries;
      var p := projects[n - 1];
      p in prev && PatchDir(root, p) in dirs &&
      ApplyFirst(root, override, run, projects, n, dirs, entries).entries ==
        prev[p := ResumedEntry(PatchPaths(root, p, dirs[PatchDir(root, p)]), prev[p])]
  {
    var prev := ApplyFirst(root, override, run, projects, n - 1, dirs, entries);
    assert StepAt(root, override, run, projects, n - 1, dirs, entries) ==
      ProjectStep(root, override, run, projects[n - 1], dirs, prev.entries);
    ProjectStepOutcome(root, override, run, projects[n - 1], dirs, prev.entries);
  }



  /** No `git am` among the effects. */
  ghost predicate NoApplies(effects: seq<Effect>) {
    forall i :: 0 <= i < |effects| ==> !effects[i].ApplyPatch?
  }

  /** The ledger entry of `project` in `after` is where resuming from its entry in `before` ends. */
  ghost predicate Resumed(root: string, dirs: map<string, seq<string>>, before: map<string, string>,
                          after: map<string, string>, project: string) {
    project in before && project in after && PatchDir(root, project) in dirs &&
    after[project] == ResumedEntry(PatchPaths(root, project, dirs[PatchDir(root, project)]), before[project])
  }

  /** Where a project's ledger entry ends when its resume starts from `last` (as it was without a patch directory). */
  function ResumeEnd(root: string, dirs: map<string, seq<string>>, project: string, last: string): string {
    if PatchDir(root, project) in dirs then
      ResumedEntry(PatchPaths(root, project, dirs[PatchDir(root, project)]), last)
    else last
  }

  /** ResumeEnd for one checkout and its patch directories, as a function of project and entry. */
  function Ends(root: string, dirs: map<string, seq<string>>): (string, string) -> string {
    (project, last) => ResumeEnd(root, dirs, project, last)
  }

  /**
   * The ledger after the first `n` projects when each of them goes through:
   * each project's entry moved by `end`, in turn.
   */
  function Settled(end: (string, string) -> string, projects: seq<string>, n: nat,
                   entries: map<string, string>): (m: map<string, string>)
    requires n <= |projects|
    ensures m.Keys == entries.Keys
  {
    if n == 0 then entries
    else
      var prev := Settled(end, projects, n - 1, entries);
      var p := projects[n - 1];
      if p in prev then prev[p := end(p, prev[p])] else prev
  }

  /** An entry none of the first `n` projects owns is left as it was. */
  lemma {:induction false} SettledUntouched(end: (string, string) -> string, projects: seq<string>, n: nat,
                                            entries: map<string, string>, q: string)
    requires n <= |projects| && q in entries
    requires forall k :: 0 <= k < n ==> projects[k] != q
    ensures Settled(end, projects, n, entries)[q] == entries[q]
  {
    if n > 0 {
      SettledUntouched(end, projects, n - 1, entries, q);
    }
  }

  /** With distinct projects, each of the first `n` is moved once, from its original entry. */
  lemma {:induction false} SettledEntry(end: (string, string) -> string, projects: seq<string>, n: nat,
                                        entries: map<string, string>, k: nat)
    requires k < n <= |projects| && Distinct(projects)
    requires projects[k] in entries
    ensures Settled(end, projects, n, entries)[projects[k]] == end(projects[k], entries[projects[k]])
  {
    var p := projects[k];
    if n == k + 1 {
      SettledUntouched(end, projects, k, entries, p);
    } else {
      SettledEntry(end, projects, n - 1, entries, k);
      assert projects[n - 1] != p;
    }
  }

  /** A run over the first `n` projects that raised nothing left the ledger Settled ... */
  lemma {:induction false} ApplyFirstLedger(root: string, override: string, run: Effect -> Reply, projects: seq<string>,
                                            n: nat, dirs: map<string, seq<string>>, entries: map<string, string>)
    requires n <= |projects|
    requires ApplyFirst(root, override, run, projects, n, dirs, entries).failure.None?
    ensures ApplyFirst(root, override, run, projects, n, dirs, entries).entries == Settled(Ends(root, dirs), projects, n, entries)
    decreases n
  {
    if n > 0 {
      FailureSticksBack(root, override, run, projects, n, dirs, entries);
      ApplyFirstLedger(root, override, run, projects, n - 1, dirs, entries);
      ApplyNextEntries(root, override, run, projects, n, dirs, entries);
    }
  }

  /** ... and found every one of them ready: upstream resolved, patch directory and ledger entry present. */
  lemma {:induction false} ApplyFirstReady(root: string, override: string, run: Effect -> Reply, projects: seq<string>,
                                           n: nat, dirs: map<string, seq<string>>, entries: map<string, string>)
    requires n <= |projects|
    requires ApplyFirst(root, override, run, projects, n, dirs, entries).failure.None?
    ensures forall k :: 0 <= k < n ==>
      ResolveUpstream(override, ProjectDir(root, projects[k]), run).Success? &&
      PatchDir(root, projects[k]) in dirs && projects[k] in entries
    ensures ApplyFirst(root, override, run, projects, n, dirs, entries).entries.Keys == entries.Keys
    decreases n
  {
    if n > 0 {
      FailureSticksBack(root, override, run, projects, n, dirs, entries);
      ApplyFirstReady(root, override, run, projects, n - 1, dirs, entries);
      ApplyNextReady(root, override, run, projects, n, dirs, entries);
    }
  }



  /** ... and so for the whole run: its commands, ledger and outcome do not depend on what `git am` answers. */
  lemma {:induction false} ApplyFirstIgnoresAmReplies(root: string, override: string, run1: Effect -> Reply,
                                                      run2: Effect -> Reply, projects: seq<string>, n: nat,
                                                      dirs: map<string, seq<string>>, entries: map<string, string>)
    requires n <= |projects| && SameQueries(run1, run2)
    ensures ApplyFirst(root, override, run1, projects, n, dirs, entries) ==
      ApplyFirst(root, override, run2, projects, n, dirs, entries)
    decreases n
  {
    if n > 0 {
      ApplyFirstIgnoresAmReplies(root, override, run1, run2, projects, n - 1, dirs, entries);
      var prev := ApplyFirst(root, override, run1, projects, n - 1, dirs, entries);
      ProjectStepIgnoresAmReplies(root, override, run1, run2, projects[n - 1], dirs, prev.entries);
      assert StepAt(root, override, run1, projects, n - 1, dirs, entries) ==
        ProjectStep(root, override, run1, projects[n - 1], dirs, prev.entries);
      assert StepAt(root, override, run2, projects, n - 1, dirs, entries) ==
        ProjectStep(root, override, run2, projects[n - 1], dirs, prev.entries);
    }
  }

  /** A run that got past `k + 1` projects got past the first `k`. */
  lemma FailureSticksBack(root: string, override: string, run: Effect -> Reply, projects: seq<string>,
                          n: nat, dirs: map<string, seq<string>>, entries: map<string, string>)
    requires 0 < n <= |projects|
    requires ApplyFirst(root, override, run, projects, n, dirs, entries).failure.None?
    ensures ApplyFirst(root, override, run, projects, n - 1, dirs, entries).failure.None?
  {
  }


  /**
   * A project whose entry is already where its resume ends is a no-op step:
   * it applies nothing and rewrites the ledger unchanged.
   */
  lemma SettledStep(root: string, override: string, run: Effect -> Reply, project: string,
                    dirs: map<string, seq<string>>, before: map<string, string>, after: map<string, string>)
    requires ResolveUpstream(override, ProjectDir(root, project), run).Success?
    requires Resumed(root, dirs, before, after, project)
    requires Distinct(dirs[PatchDir(root, project)])
    ensures var s := ProjectStep(root, override, run, project, dirs, after);
      s.failure.None? && s.entries == after && NoApplies(s.effects)
  {
    var paths := PatchPaths(root, project, dirs[PatchDir(root, project)]);
    PatchPathsOrdered(root, project, dirs[PatchDir(root, project)]);
    ResumeIdempotent(paths, before[project]);
    ProjectStepProceeds(root, override, run, project, dirs, after);
    assert after[project := after[project]] == after;
  }

  /** An entry moved by Ends is where that project's resume ends. */
  lemma EndsResumed(root: string, dirs: map<string, seq<string>>, before: map<string, string>,
                    after: map<string, string>, project: string)
    requires project in before && project in after && PatchDir(root, project) in dirs
    requires after[project] == Ends(root, dirs)(project, before[project])
    ensures Resumed(root, dirs, before, after, project)
  {
  }

  /** Effects without `git am` stay so when joined. */
  lemma NoAppliesConcat(a: seq<Effect>, b: seq<Effect>)
    requires NoApplies(a) && NoApplies(b)
    ensures NoApplies(a + b)
  {
    assert forall i :: 0 <= i < |a + b| ==> (a + b)[i] == if i < |a| then a[i] else b[i - |a|];
  }

  /** Running `project` over `entries` raises nothing, applies no patch and leaves the ledger as it was. */
  ghost predicate Noop(root: string, override: string, run: Effect -> Reply, project: string,
                       dirs: map<string, seq<string>>, entries: map<string, string>) {
    var s := ProjectStep(root, override, run, project, dirs, entries);
    s.failure.None? && s.entries == entries && NoApplies(s.effects)
  }

  /** One more no-op project after `n - 1` no-op steps is a no-op step too. */
  lemma ApplyNextNoop(root: string, override: string, run: Effect -> Reply, projects: seq<string>,
                      n: nat, dirs: map<string, seq<string>>, entries: map<string, string>)
    requires 0 < n <= |projects|
    requires var prev := ApplyFirst(root, override, run, projects, n - 1, dirs, entries);
      prev.failure.None? && prev.entries == entries && NoApplies(prev.effects)
    requires Noop(root, override, run, projects[n - 1], dirs, entries)
    ensures var s := ApplyFirst(root, override, run, projects, n, dirs, entries);
      s.failure.None? && s.entries == entries && NoApplies(s.effects)
  {
    var prev := ApplyFirst(root, override, run, projects, n - 1, dirs, entries);
    var step := ProjectStep(root, override, run, projects[n - 1], dirs, entries);
    assert StepAt(root, override, run, projects, n - 1, dirs, entries) == step;
    NoAppliesConcat(prev.effects, step.effects);
  }

  /** A run over no-op projects is a no-op. */
  lemma {:induction false} NoopRun(root: string, override: string, run: Effect -> Reply, projects: seq<string>,
                                   n: nat, dirs: map<string, seq<string>>, entries: map<string, string>)
    requires n <= |projects|
    requires forall k :: 0 <= k < n ==> Noop(root, override, run, projects[k], dirs, entries)
    ensures var s := ApplyFirst(root, override, run, projects, n, dirs, entries);
      s.failure.None? && s.entries == entries && NoApplies(s.effects)
    decreases n
  {
    if n > 0 {
      NoopRun(root, override, run, projects, n - 1, dirs, entries);
      ApplyNextNoop(root, override, run, projects, n, dirs, entries);
    }
  }

  /**
   * Every project of a second run over the ledger a successful first run
   * left behind is a no-op step, when projects are distinct and no listing
   * repeats a name.
   */
  lemma SettledNoop(root: string, override: string, run: Effect -> Reply, projects: seq<string>,
                    dirs: map<string, seq<string>>, before: map<string, string>, after: map<string, string>, k: nat)
    requires k < |projects| && Distinct(projects)
    requires ResolveUpstream(override, ProjectDir(root, projects[k]), run).Success?
    requires PatchDir(root, projects[k]) in dirs && projects[k] in before
    requires Distinct(dirs[PatchDir(root, projects[k])])
    requires after == Settled(Ends(root, dirs), projects, |projects|, before)
    ensures Noop(root, override, run, projects[k], dirs, after)
  {
    SettledEntry(Ends(root, dirs), projects, |projects|, before, k);
    EndsResumed(root, dirs, before, after, projects[k]);
    SettledStep(root, override, run, projects[k], dirs, before, after);
  }

  /** Over the ledger a successful run left behind, every project is a no-op step. */
  lemma SettledAllNoop(root: string, override: string, run: Effect -> Reply, projects: seq<string>,
                       dirs: map<string, seq<string>>, before: map<string, string>, after: map<string, string>)
    requires Distinct(projects)
    requires forall k :: 0 <= k < |projects| ==>
      ResolveUpstream(override, ProjectDir(root, projects[k]), run).Success? &&
      PatchDir(root, projects[k]) in dirs && projects[k] in before
    requires forall d :: d in dirs ==> Distinct(dirs[d])
    requires after == Settled(Ends(root, dirs), projects, |projects|, before)
    ensures forall k :: 0 <= k < |projects| ==> Noop(root, override, run, projects[k], dirs, after)
  {
    forall k | 0 <= k < |projects|
      ensures Noop(root, override, run, projects[k], dirs, after)
    {
      SettledNoop(root, override, run, projects, dirs, before, after, k);
    }
  }

  /**
   * Running every project again over the ledger a successful run wrote
   * raises nothing, applies no patch and leaves the ledger as it was, when
   * projects are distinct and no directory listing repeats a name.
   */
  lemma RunAgainNoop(root: string, override: string, run: Effect -> Reply, projects: seq<string>,
                     dirs: map<string, seq<string>>, loaded: map<string, string>)
    requires Distinct(projects)
    requires forall d :: d in dirs ==> Distinct(dirs[d])
    requires ApplyAll(root, override, run, projects, dirs, loaded).failure.None?
    ensures var written := ApplyAll(root, override, run, projects, dirs, loaded).entries;
      var s := ApplyAll(root, override, run, projects, dirs, written);
      s.failure.None? && s.entries == written && NoApplies(s.effects)
  {
    var written := ApplyAll(root, override, run, projects, dirs, loaded).entries;
    ApplyFirstReady(root, override, run, projects, |projects|, dirs, loaded);
    ApplyFirstLedger(root, override, run, projects, |projects|, dirs, loaded);
    SettledAllNoop(root, override, run, projects, dirs, loaded, written);
    NoopRun(root, override, run, projects, |projects|, dirs, written);
  }

  /** A successful run over at least one project ends with the write of its final ledger. */
  lemma ApplyFirstWritesLast(root: string, override: string, run: Effect -> Reply, projects: seq<string>,
                             n: nat, dirs: map<string, seq<string>>, entries: map<string, string>)
    requires 0 < n <= |projects|
    requires ApplyFirst(root, override, run, projects, n, dirs, entries).failure.None?
    ensures var s := ApplyFirst(root, override, run, projects, n, dirs, entries);
      |s.effects| > 0 && s.effects[|s.effects| - 1] == WriteLedger(LedgerPath(root), s.entries)
  {
    FailureSticksBack(root, override, run, projects, n, dirs, entries);
    ApplyNextReady(root, override, run, projects, n, dirs, entries);
    var prev := ApplyFirst(root, override, run, projects, n - 1, dirs, entries);
    assert StepAt(root, override, run, projects, n - 1, dirs, entries) ==
      ProjectStep(root, override, run, projects[n - 1], dirs, prev.entries);
    ProjectStepProceeds(root, override, run, projects[n - 1], dirs, prev.entries);
  }

  /**
   * The ledger file a successful git_pull.py run leaves behind holds the
   * in-memory ledger at the end of the run: its last effect is that write.
   */
  lemma PullWritesLedgerLast(root: string, override: string, projects: seq<string>, run: Effect -> Reply,
                             ledgerFile: Option<map<string, string>>, dirs: map<string, seq<string>>)
    requires |projects| > 0
    requires PullSpec(root, override, projects, run, ledgerFile, dirs).failure.None?
    ensures var r := PullSpec(root, override, projects, run, ledgerFile, dirs);
      r.issued[|r.issued| - 1] ==
        WriteLedger(LedgerPath(root), ApplyAll(root, override, run, projects, dirs, LoadedLedger(projects, ledgerFile)).entries)
  {
    ApplyFirstWritesLast(root, override, run, projects, |projects|, dirs, LoadedLedger(projects, ledgerFile));
  }

  /**
   * Running git_pull.py again after a successful run, with the ledger file
   * it wrote and the same repositories, pulls again but applies no patch and
   * leaves every ledger entry as it was. Projects are distinct and a
   * directory listing never repeats a name.
   */
  lemma PullTwice(root: string, override: string, projects: seq<string>, run: Effect -> Reply,
                  ledgerFile: Option<map<string, string>>, dirs: map<string, seq<string>>)
    requires Distinct(projects)
    requires forall d :: d in dirs ==> Distinct(dirs[d])
    requires PullSpec(root, override, projects, run, ledgerFile, dirs).failure.None?
    ensures var written := ApplyAll(root, override, run, projects, dirs, LoadedLedger(projects, ledgerFile)).entries;
      var again := PullSpec(root, override, projects, run, Some(written), dirs);
      again.failure.None? && again.issued[0] == Pull(root) && NoApplies(again.issued) &&
      ApplyAll(root, override, run, projects, dirs, written).entries == written
  {
    var loaded := LoadedLedger(projects, ledgerFile);
    RunAgainNoop(root, override, run, projects, dirs, loaded);
    var written := ApplyAll(root, override, run, projects, dirs, loaded).entries;
    var s := ApplyAll(root, override, run, projects, dirs, written);
    assert forall i :: 0 <= i < |[Pull(root)] + s.effects| ==>
      ([Pull(root)] + s.effects)[i] == if i == 0 then Pull(root) else s.effects[i - 1];
  }

  /**
   * A successful run moves each project's entry to where resuming from its
   * loaded entry ends, when projects are distinct.
   */
  lemma RunResumesEach(root: string, override: string, run: Effect -> Reply, projects: seq<string>,
                       dirs: map<string, seq<string>>, loaded: map<string, string>)
    requires Distinct(projects)
    requires ApplyAll(root, override, run, projects, dirs, loaded).failure.None?
    ensures forall k :: 0 <= k < |projects| ==>
      Resumed(root, dirs, loaded, ApplyAll(root, override, run, projects, dirs, loaded).entries, projects[k])
  {
    var written := ApplyAll(root, override, run, projects, dirs, loaded).entries;
    ApplyFirstReady(root, override, run, projects, |projects|, dirs, loaded);
    ApplyFirstLedger(root, override, run, projects, |projects|, dirs, loaded);
    forall k | 0 <= k < |projects|
      ensures Resumed(root, dirs, loaded, written, projects[k])
    {
      SettledEntry(Ends(root, dirs), projects, |projects|, loaded, k);
      EndsResumed(root, dirs, loaded, written, projects[k]);
    }
  }

  /** Resuming from "" ends at the last patch, or stays "" when there is none. */
  lemma ResumedFromEmpty(root: string, dirs: map<string, seq<string>>, before: map<string, string>,
                         after: map<string, string>, project: string)
    requires Resumed(root, dirs, before, after, project) && before[project] == ""
    ensures var paths := PatchPaths(root, project, dirs[PatchDir(root, project)]);
      after[project] == if paths == [] then "" else paths[|paths| - 1]
  {
    ResumedEntryIsFinalPatch(PatchPaths(root, project, dirs[PatchDir(root, project)]), "");
  }

  /**
   * With no ledger file, a successful run leaves each project's entry at the
   * path of its last patch in sorted order, or "" when it has no patch.
   */
  lemma FreshPullEndsAtLastPatch(root: string, override: string, projects: seq<string>, run: Effect -> Reply,
                                 dirs: map<string, seq<string>>)
    requires Distinct(projects)
    requires PullSpec(root, override, projects, run, None, dirs).failure.None?
    ensures var written := ApplyAll(root, override, run, projects, dirs, DefaultLedger(projects)).entries;
      forall k :: 0 <= k < |projects| ==>
        PatchDir(root, projects[k]) in dirs && projects[k] in written &&
        var paths := PatchPaths(root, projects[k], dirs[PatchDir(root, projects[k])]);
        written[projects[k]] == if paths == [] then "" else paths[|paths| - 1]
  {
    var loaded := DefaultLedger(projects);
    var written := ApplyAll(root, override, run, projects, dirs, loaded).entries;
    RunResumesEach(root, override, run, projects, dirs, loaded);
    forall k | 0 <= k < |projects|
      ensures PatchDir(root, projects[k]) in dirs && projects[k] in written
      ensures var paths := PatchPaths(root, projects[k], dirs[PatchDir(root, projects[k])]);
        written[projects[k]] == if paths == [] then "" else paths[|paths| - 1]
    {
      ResumedFromEmpty(root, dirs, loaded, written, projects[k]);
    }
  }
}
