/**
 * Commit and export (git_commit.py): commit every project with the
 * caller's pass-through git flags, export each project's patches, then
 * commit the umbrella repository, stopping at the first step that raises.
 */
module Commit {
  import opened Wrappers
  import opened Git
  import opened Patches

  // ---------------------------------------------------------------------
  // The flags given to every `git commit`

  /** The message flag is added for a non-empty message the pass-through flags do not already carry. */
  predicate AddsMessage(unknown: seq<string>, message: string) {
    message != "" && "-m" !in unknown && "--message" !in unknown
  }

  /** `f'"{message}"'`: the message wrapped in double quotes. */
  function Quoted(message: string): (r: string)
    ensures |r| == |message| + 2 && r[0] == '"' && r[|r| - 1] == '"'
    ensures r[1..|r| - 1] == message
  {
    "\"" + message + "\""
  }

  /**
   * `git_commands`: the pass-through flags in their order, followed by
   * `-m "<message>"` exactly when AddsMessage holds.
   */
  function GitCommands(unknown: seq<string>, message: string): (r: seq<string>)
    ensures |unknown| <= |r| && r[..|unknown|] == unknown
    ensures |r| > |unknown| <==> AddsMessage(unknown, message)
    ensures |r| > |unknown| ==> r[|unknown|..] == ["-m", Quoted(message)]
  {
    if AddsMessage(unknown, message) then unknown + ["-m", Quoted(message)] else unknown
  }

  /** Builds `git_commands` as main does: a copy of the pass-through flags, extended in place. */
  method AssembleGitCommands(unknown: seq<string>, message: string) returns (commands: seq<string>)
    ensures commands == GitCommands(unknown, message)
  {
    commands := unknown;
    if message != "" && "-m" !in unknown && "--message" !in unknown {
      commands := commands + ["-m"];
      commands := commands + [Quoted(message)];
    }
  }

  /** With a non-empty message every commit carries a message flag, the caller's or the added one. */
  lemma GitCommandsCarryMessage(unknown: seq<string>, message: string)
    requires message != ""
    ensures "-m" in GitCommands(unknown, message) || "--message" in GitCommands(unknown, message)
  {
    var r := GitCommands(unknown, message);
    if AddsMessage(unknown, message) {
      assert r[|unknown|] == "-m";
    } else {
      assert r == unknown;
    }
  }

  // ---------------------------------------------------------------------
  // One commit

  /**
   * make_commit's argument list: `git`, then `-C <root>/<project>` only
   * for a project (None and "" are both false in Python; "" stands for
   * both), then `commit`, then the flags.
   */
  function CommitArgv(root: string, flags: seq<string>, project: string): (r: seq<string>)
    ensures |r| >= |flags| + 2 && r[0] == "git" && r[|r| - |flags| - 1] == "commit" && r[|r| - |flags|..] == flags
    ensures project != "" ==> |r| == |flags| + 4 && r[1] == "-C" && r[2] == ProjectDir(root, project)
    ensures project == "" ==> |r| == |flags| + 2
  {
    var target := if project != "" then ["-C", ProjectDir(root, project)] else [];
    ["git"] + target + ["commit"] + flags
  }

  /** One commit: the command is issued, and any non-zero exit raises, a clean tree included. */
  function CommitStep(root: string, flags: seq<string>, run: Effect -> Reply, project: string): (r: Run)
    ensures r.issued == [Commit(CommitArgv(root, flags, project))]
    ensures r.failure.Some? <==> run(Commit(CommitArgv(root, flags, project))).code != 0
    ensures r.failure.Some? ==> r.failure.value == CommitFailed(run(Commit(CommitArgv(root, flags, project))).code)
  {
    var e := Commit(CommitArgv(root, flags, project));
    var code := run(e).code;
    Run([e], if code != 0 then Some(CommitFailed(code)) else None)
  }

  /** make_commit: builds the argument list step by step, runs it and raises on a non-zero exit. */
  method MakeCommit(sh: Shell, root: string, flags: seq<string>, project: string) returns (failure: Option<Error>)
    modifies sh
    ensures var s := CommitStep(root, flags, sh.run, project);
      sh.effects == old(sh.effects) + s.issued && failure == s.failure
  {
    var cmd := ["git"];
    if project != "" {
      cmd := cmd + ["-C", ProjectDir(root, project)];
    }
    cmd := cmd + ["commit"];
    cmd := cmd + flags;
    assert cmd == CommitArgv(root, flags, project);
    var reply := sh.Execute(Commit(cmd));
    if reply.code != 0 {
      return Some(CommitFailed(reply.code));
    }
    return None;
  }

  // ---------------------------------------------------------------------
  // The whole script

  /** Every project committed in order, stopping at the first commit that raises. */
  function CommitEach(root: string, flags: seq<string>, run: Effect -> Reply, projects: seq<string>): (r: Run)
    decreases |projects|
  {
    if projects == [] then Run([], None)
    else
      Then(CommitEach(root, flags, run, projects[..|projects| - 1]),
           CommitStep(root, flags, run, projects[|projects| - 1]))
  }

  /** main of git_commit.py: the project commits, then the patch export, then the umbrella commit. */
  function CommitScript(root: string, override: string, flags: seq<string>, run: Effect -> Reply,
                        projects: seq<string>): Run
  {
    Then(Then(CommitEach(root, flags, run, projects), MakeAll(root, override, run, projects)),
         CommitStep(root, flags, run, ""))
  }

  /** Once a commit among the first `n` projects raises, the later projects change nothing. */
  lemma {:induction false} CommitEachSticks(root: string, flags: seq<string>, run: Effect -> Reply,
                                            projects: seq<string>, n: nat, m: nat)
    requires n <= m <= |projects|
    requires CommitEach(root, flags, run, projects[..n]).failure.Some?
    ensures CommitEach(root, flags, run, projects[..m]) == CommitEach(root, flags, run, projects[..n])
    decreases m
  {
    if n < m {
      CommitEachSticks(root, flags, run, projects, n, m - 1);
      assert projects[..m][..m - 1] == projects[..m - 1];
    }
  }

  /** The same for the patch export. */
  lemma {:induction false} MakeAllSticks(root: string, override: string, run: Effect -> Reply,
                                         projects: seq<string>, n: nat, m: nat)
    requires n <= m <= |projects|
    requires MakeAll(root, override, run, projects[..n]).failure.Some?
    ensures MakeAll(root, override, run, projects[..m]) == MakeAll(root, override, run, projects[..n])
    decreases m
  {
    if n < m {
      MakeAllSticks(root, override, run, projects, n, m - 1);
      assert projects[..m][..m - 1] == projects[..m - 1];
    }
  }

  /** The commits of the first `i + 1` projects: those of the first `i`, then project `i`. */
  lemma CommitEachNext(root: string, flags: seq<string>, run: Effect -> Reply, projects: seq<string>, i: nat)
    requires i < |projects|
    ensures CommitEach(root, flags, run, projects[..i + 1]) ==
      Then(CommitEach(root, flags, run, projects[..i]), CommitStep(root, flags, run, projects[i]))
  {
    assert projects[..i + 1][..i] == projects[..i];
  }

  /** The export of the first `i + 1` projects: that of the first `i`, then project `i`. */
  lemma MakeAllNext(root: string, override: string, run: Effect -> Reply, projects: seq<string>, i: nat)
    requires i < |projects|
    ensures MakeAll(root, override, run, projects[..i + 1]) ==
      Then(MakeAll(root, override, run, projects[..i]), MakePatches(root, override, run, projects[i]))
  {
    assert projects[..i + 1][..i] == projects[..i];
  }

  /** `[make_commit(git_commands, project) for project in projects]` */
  method CommitProjects(sh: Shell, root: string, flags: seq<string>, projects: seq<string>)
    returns (failure: Option<Error>)
    modifies sh
    ensures var s := CommitEach(root, flags, sh.run, projects);
      sh.effects == old(sh.effects) + s.issued && failure == s.failure
  {
    ghost var base := sh.effects;
    for i := 0 to |projects|
      invariant CommitEach(root, flags, sh.run, projects[..i]).failure.None?
      invariant sh.effects == base + CommitEach(root, flags, sh.run, projects[..i]).issued
    {
      failure := MakeCommit(sh, root, flags, projects[i]);
      CommitEachNext(root, flags, sh.run, projects, i);
      if failure.Some? {
        CommitEachSticks(root, flags, sh.run, projects, i + 1, |projects|);
        assert projects[..|projects|] == projects;
        return;
      }
    }
    assert projects[..|projects|] == projects;
    failure := None;
  }

  /** make_patches of git_commit.py: the same commands and outcome as make_patches.py's. */
  method MakeProjectPatches(sh: Shell, root: string, override: string, project: string)
    returns (failure: Option<Error>)
    modifies sh
    ensures var s := MakePatches(root, override, sh.run, project);
      sh.effects == old(sh.effects) + s.issued && failure == s.failure
  {
    var upstream := GetUpstream(sh, override, ProjectDir(root, project));
    if upstream.Failure? {
      return Some(upstream.error);
    }
    var _ := sh.Execute(FormatPatchCommand(root, project, upstream.value));
    return None;
  }

  /** `[make_patches(project) for project in projects]` */
  method MakeEachPatches(sh: Shell, root: string, override: string, projects: seq<string>)
    returns (failure: Option<Error>)
    modifies sh
    ensures var s := MakeAll(root, override, sh.run, projects);
      sh.effects == old(sh.effects) + s.issued && failure == s.failure
  {
    ghost var base := sh.effects;
    for i := 0 to |projects|
      invariant MakeAll(root, override, sh.run, projects[..i]).failure.None?
      invariant sh.effects == base + MakeAll(root, override, sh.run, projects[..i]).issued
    {
      failure := MakeProjectPatches(sh, root, override, projects[i]);
      MakeAllNext(root, override, sh.run, projects, i);
      if failure.Some? {
        MakeAllSticks(root, override, sh.run, projects, i + 1, |projects|);
        assert projects[..|projects|] == projects;
        return;
      }
    }
    assert projects[..|projects|] == projects;
    failure := None;
  }

  /**
   * main of git_commit.py over the configured `projects` (the script uses
   * Git.Projects), with the pass-through flags and the message.
   */
  method CommitAndMakePatches(sh: Shell, root: string, override: string, projects: seq<string>,
                              unknown: seq<string>, message: string)
    returns (failure: Option<Error>)
    modifies sh
    ensures var r := CommitScript(root, override, GitCommands(unknown, message), sh.run, projects);
      sh.effects == old(sh.effects) + r.issued && failure == r.failure
  {
    ghost var base := sh.effects;
    var flags := AssembleGitCommands(unknown, message);
    failure := CommitProjects(sh, root, flags, projects);
    ghost var each := CommitEach(root, flags, sh.run, projects);
    if failure.Some? {
      return;
    }
    failure := MakeEachPatches(sh, root, override, projects);
    ghost var made := MakeAll(root, override, sh.run, projects);
    AppendAssoc3(base, each.issued, made.issued);
    if failure.Some? {
      return;
    }
    failure := MakeCommit(sh, root, flags, "");
    AppendAssoc3(base, each.issued + made.issued, CommitStep(root, flags, sh.run, "").issued);
  }

  // ---------------------------------------------------------------------
  // Properties of the script

  /** The project commits go through exactly when every one of them exits with 0. */
  lemma {:induction false} CommitEachFailsIff(root: string, flags: seq<string>, run: Effect -> Reply, projects: seq<string>)
    ensures CommitEach(root, flags, run, projects).failure.None? <==>
      forall k :: 0 <= k < |projects| ==> run(Commit(CommitArgv(root, flags, projects[k]))).code == 0
    decreases |projects|
  {
    if projects != [] {
      var init := projects[..|projects| - 1];
      CommitEachFailsIff(root, flags, run, init);
      assert forall k :: 0 <= k < |init| ==> init[k] == projects[k];
    }
  }

  /** When they go through, one commit per project was issued, in project order. */
  lemma {:induction false} CommitEachIssued(root: string, flags: seq<string>, run: Effect -> Reply, projects: seq<string>)
    requires CommitEach(root, flags, run, projects).failure.None?
    ensures CommitEach(root, flags, run, projects).issued ==
      seq(|projects|, k requires 0 <= k < |projects| => Commit(CommitArgv(root, flags, projects[k])))
    decreases |projects|
  {
    if projects != [] {
      var init := projects[..|projects| - 1];
      CommitEachIssued(root, flags, run, init);
    }
  }

  /**
   * A successful run issues the project commits in order, then the export
   * of every project, then the umbrella commit, which has no `-C`.
   */
  lemma ScriptOrder(root: string, override: string, flags: seq<string>, run: Effect -> Reply, projects: seq<string>)
    requires CommitScript(root, override, flags, run, projects).failure.None?
    ensures CommitScript(root, override, flags, run, projects).issued ==
      seq(|projects|, k requires 0 <= k < |projects| => Commit(CommitArgv(root, flags, projects[k]))) +
      MakeAll(root, override, run, projects).issued + [Commit(["git", "commit"] + flags)]
  {
    var each := CommitEach(root, flags, run, projects);
    assert each.failure.None?;
    CommitEachIssued(root, flags, run, projects);
    assert CommitArgv(root, flags, "") == ["git", "commit"] + flags;
  }

  /**
   * A successful run committed everything with exit code 0: a commit that
   * finds nothing to commit (non-zero exit) would have ended it.
   */
  lemma SuccessMeansEveryCommitSucceeded(root: string, override: string, flags: seq<string>, run: Effect -> Reply,
                                         projects: seq<string>)
    requires CommitScript(root, override, flags, run, projects).failure.None?
    ensures forall k :: 0 <= k < |projects| ==> run(Commit(CommitArgv(root, flags, projects[k]))).code == 0
    ensures run(Commit(CommitArgv(root, flags, ""))).code == 0
    ensures MakeAll(root, override, run, projects).failure.None?
  {
    CommitEachFailsIff(root, flags, run, projects);
  }

  /** If the first project's commit exits non-zero, nothing else runs: no export, no umbrella commit. */
  lemma FirstCommitFailureAborts(root: string, override: string, flags: seq<string>, run: Effect -> Reply,
                                 projects: seq<string>)
    requires |projects| > 0
    requires run(Commit(CommitArgv(root, flags, projects[0]))).code != 0
    ensures var e := Commit(CommitArgv(root, flags, projects[0]));
      CommitScript(root, override, flags, run, projects) == Run([e], Some(CommitFailed(run(e).code)))
  {
    assert projects[..1][..0] == [];
    CommitEachSticks(root, flags, run, projects, 1, |projects|);
    assert projects[..|projects|] == projects;
  }

  /**
   * The configured projects with an override and every command exiting 0:
   * commit Test_Big1, commit Test_Big2, export Test_Big1, export Test_Big2,
   * commit the umbrella repository.
   */
  lemma ConfiguredRunOrder(root: string, override: string, flags: seq<string>, run: Effect -> Reply)
    requires override != ""
    requires forall e :: run(e).code == 0
    ensures CommitScript(root, override, flags, run, Projects) == Run([
      Commit(["git", "-C", ProjectDir(root, "Test_Big1"), "commit"] + flags),
      Commit(["git", "-C", ProjectDir(root, "Test_Big2"), "commit"] + flags),
      FormatPatch(ProjectDir(root, "Test_Big1"), override, PatchDir(root, "Test_Big1")),
      FormatPatch(ProjectDir(root, "Test_Big2"), override, PatchDir(root, "Test_Big2")),
      Commit(["git", "commit"] + flags)], None)
  {
    var c1 := Commit(["git", "-C", ProjectDir(root, "Test_Big1"), "commit"] + flags);
    var c2 := Commit(["git", "-C", ProjectDir(root, "Test_Big2"), "commit"] + flags);
    assert CommitArgv(root, flags, "Test_Big1") == ["git", "-C", ProjectDir(root, "Test_Big1"), "commit"] + flags;
    assert CommitArgv(root, flags, "Test_Big2") == ["git", "-C", ProjectDir(root, "Test_Big2"), "commit"] + flags;
    assert Projects[..1] == ["Test_Big1"] && Projects[..1][..0] == [] && Projects[..2] == Projects;
    assert CommitEach(root, flags, run, Projects[..1]) == Run([c1], None);
    assert CommitEach(root, flags, run, Projects) == Run([c1, c2], None);
    MakeAllWithOverride(root, override, run, Projects);
    assert MakeAll(root, override, run, Projects).issued ==
      [FormatPatch(ProjectDir(root, "Test_Big1"), override, PatchDir(root, "Test_Big1")),
       FormatPatch(ProjectDir(root, "Test_Big2"), override, PatchDir(root, "Test_Big2"))];
    assert CommitArgv(root, flags, "") == ["git", "commit"] + flags;
  }
}
