/**
 * Patch export (make_patches.py): for every project, in the configured
 * order, resolve the upstream and ask git to write one patch per commit
 * since it into the project's patch directory.
 */
module Patches {
  import opened Wrappers
  import opened Git

  /** `git -C <root>/<project> format-patch <upstream> -o <root>/overlay/<project>_patches` */
  function FormatPatchCommand(root: string, project: string, upstream: string): (r: Effect)
    ensures r.FormatPatch?
    ensures r.repo == ProjectDir(root, project) && r.range == upstream
    ensures r.outDir == PatchDir(root, project)
  {
    FormatPatch(ProjectDir(root, project), upstream, PatchDir(root, project))
  }

  /** The tracking-branch query of `project` prints nothing. */
  predicate NoTrackingOutput(root: string, run: Effect -> Reply, project: string) {
    run(RevParseUpstream(ProjectDir(root, project))).lines == []
  }

  /**
   * One project: the upstream query (when there is no override), then
   * format-patch. Only an unresolvable upstream raises; the exit code of
   * format-patch is only logged.
   */
  function MakePatches(root: string, override: string, run: Effect -> Reply, project: string): (r: Run)
    ensures r.failure.Some? <==> override == "" && NoTrackingOutput(root, run, project)
    ensures r.failure.Some? ==> r.issued == UpstreamQueries(override, ProjectDir(root, project))
    ensures r.failure.None? ==>
      r.issued == UpstreamQueries(override, ProjectDir(root, project)) +
                  [FormatPatchCommand(root, project, ResolveUpstream(override, ProjectDir(root, project), run).value)]
  {
    var repo := ProjectDir(root, project);
    match ResolveUpstream(override, repo, run)
    case Failure(e) => Run(UpstreamQueries(override, repo), Some(e))
    case Success(upstream) => Run(UpstreamQueries(override, repo) + [FormatPatchCommand(root, project, upstream)], None)
  }

  /** The projects in order, stopping at the first one that raises. */
  function MakeAll(root: string, override: string, run: Effect -> Reply, projects: seq<string>): (r: Run)
    decreases |projects|
  {
    if projects == [] then Run([], None)
    else
      Then(MakeAll(root, override, run, projects[..|projects| - 1]),
           MakePatches(root, override, run, projects[|projects| - 1]))
  }

  /** The whole of make_patches.py: every configured project, in order. */
  function MakePatchesForAll(root: string, override: string, run: Effect -> Reply): (r: Run)
    ensures r.failure.Some? <==>
      override == "" && (NoTrackingOutput(root, run, "Test_Big1") || NoTrackingOutput(root, run, "Test_Big2"))
    ensures override == "" && NoTrackingOutput(root, run, "Test_Big1") ==>
      r == MakePatches(root, override, run, "Test_Big1")
    ensures r.failure.None? ==>
      r.issued == MakePatches(root, override, run, "Test_Big1").issued +
                  MakePatches(root, override, run, "Test_Big2").issued
  {
    assert Projects[..1] == ["Test_Big1"] && Projects[..1][..0] == [];
    assert Projects[|Projects| - 1] == "Test_Big2";
    assert MakeAll(root, override, run, Projects[..1]) ==
      Then(Run([], None), MakePatches(root, override, run, "Test_Big1"));
    assert MakeAll(root, override, run, Projects) ==
      Then(MakeAll(root, override, run, Projects[..1]), MakePatches(root, override, run, "Test_Big2"));
    MakeAll(root, override, run, Projects)
  }

  /** The export fails exactly when there is no override and some project's tracking query prints nothing. */
  lemma {:induction false} MakeAllFailsIffQuerySilent(root: string, override: string, run: Effect -> Reply, projects: seq<string>)
    ensures MakeAll(root, override, run, projects).failure.Some? <==>
      override == "" && exists i :: 0 <= i < |projects| && NoTrackingOutput(root, run, projects[i])
    decreases |projects|
  {
    if projects != [] {
      var init := projects[..|projects| - 1];
      MakeAllFailsIffQuerySilent(root, override, run, init);
      if override == "" && exists i :: 0 <= i < |projects| && NoTrackingOutput(root, run, projects[i]) {
        var i :| 0 <= i < |projects| && NoTrackingOutput(root, run, projects[i]);
        if i < |init| {
          assert init[i] == projects[i];
        }
      }
      if override == "" && exists i :: 0 <= i < |init| && NoTrackingOutput(root, run, init[i]) {
        var i :| 0 <= i < |init| && NoTrackingOutput(root, run, init[i]);
        assert projects[i] == init[i];
      }
    }
  }

  /** With an override nothing is queried: one format-patch per project, in order, against the override. */
  lemma {:induction false} MakeAllWithOverride(root: string, override: string, run: Effect -> Reply, projects: seq<string>)
    requires override != ""
    ensures MakeAll(root, override, run, projects) ==
      Run(seq(|projects|, i requires 0 <= i < |projects| => FormatPatchCommand(root, projects[i], override)), None)
    decreases |projects|
  {
    if projects != [] {
      var init := projects[..|projects| - 1];
      MakeAllWithOverride(root, override, run, init);
    }
  }

  /** Whatever format-patch answers, the export issues the same commands and ends the same way. */
  lemma {:induction false} FormatPatchExitIgnored(root: string, override: string, run1: Effect -> Reply, run2: Effect -> Reply, projects: seq<string>)
    requires forall repo :: run1(RevParseUpstream(repo)) == run2(RevParseUpstream(repo))
    ensures MakeAll(root, override, run1, projects) == MakeAll(root, override, run2, projects)
    decreases |projects|
  {
    if projects != [] {
      FormatPatchExitIgnored(root, override, run1, run2, projects[..|projects| - 1]);
      var repo := ProjectDir(root, projects[|projects| - 1]);
      assert run1(RevParseUpstream(repo)) == run2(RevParseUpstream(repo));
    }
  }
}
