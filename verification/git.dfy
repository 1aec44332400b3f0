/**
 * What the three scripts share: the fixed project list, the directory
 * layout under the root path, the external effects they cause, the
 * command runner that causes them, and the choice of upstream reference.
 */
module Git {
  import opened Wrappers

  /** The configured projects, in processing order. */
  const Projects: seq<string> := ["Test_Big1", "Test_Big2"]

  /** `<root>/<project>`: the project's working tree. */
  function ProjectDir(root: string, project: string): string {
    root + "/" + project
  }

  /** `<root>/overlay/<project>_patches`: where patches are written and read. */
  function PatchDir(root: string, project: string): string {
    root + "/overlay/" + project + "_patches"
  }

  /** `<root>/overlay/applied_patches.json`: the applied-patch ledger. */
  function LedgerPath(root: string): string {
    root + "/overlay/applied_patches.json"
  }

  /** `os.path.join(dir, name)` for a plain file name. */
  function Join(dir: string, name: string): string {
    dir + "/" + name
  }

  /** The external effects the scripts cause, in the order they cause them. */
  datatype Effect =
    | Pull(repo: string)                                      // git -C <repo> pull
    | RevParseUpstream(repo: string)                          // git -C <repo> rev-parse --abbrev-ref --symbolic-full-name @{u}
    | ApplyPatch(repo: string, patch: string)                 // git -C <repo> am --3way <patch>
    | FormatPatch(repo: string, range: string, outDir: string) // git -C <repo> format-patch <range> -o <outDir>
    | Commit(argv: seq<string>)                               // the argument list given to the runner
    | WriteLedger(path: string, entries: map<string, string>) // the ledger file at `path` overwritten with this mapping

  /** What the runner hands back: the output lines and the exit code. */
  datatype Reply = Reply(lines: seq<string>, code: int)

  /** The exceptions that end a script. */
  datatype Error =
    | PullFailed(code: int)             // the umbrella pull exited non-zero
    | NoQueryOutput(repo: string)       // the tracking-branch query printed nothing: `output[0]` fails
    | MissingPatchDir(dir: string)      // the patch directory cannot be listed
    | NotInLedger(project: string)      // the project has no ledger entry
    | CommitFailed(code: int)           // a commit exited non-zero

  /** The effects issued by a sequence of steps, and the error that stopped it, if any. */
  datatype Run = Run(issued: seq<Effect>, failure: Option<Error>)

  /** Run `b` after `a` unless `a` raised. */
  function Then(a: Run, b: Run): (r: Run)
    ensures a.failure.Some? ==> r == a
    ensures a.failure.None? ==> r.issued == a.issued + b.issued && r.failure == b.failure
  {
    if a.failure.Some? then a else Run(a.issued + b.issued, b.failure)
  }

  /**
   * The command runner and the world behind it. `run` fixes the reply every
   * command gets; `effects` records every command issued and every ledger
   * write, oldest first.
   */
  class Shell {
    const run: Effect -> Reply
    var effects: seq<Effect>

    constructor (run: Effect -> Reply)
      ensures this.run == run && effects == []
    {
      this.run := run;
      effects := [];
    }

    /** Runs one command and hands back its output lines and exit code. */
    method Execute(e: Effect) returns (reply: Reply)
      modifies this
      ensures effects == old(effects) + [e]
      ensures reply == run(e)
    {
      effects := effects + [e];
      reply := run(e);
    }
  }

  /** The tracking-branch query is issued only when no override is given. */
  function UpstreamQueries(override: string, repo: string): (r: seq<Effect>)
    ensures r == [] <==> override != ""
    ensures r != [] ==> r == [RevParseUpstream(repo)]
  {
    if override == "" then [RevParseUpstream(repo)] else []
  }

  /**
   * The upstream of a project: a non-empty override verbatim, otherwise the
   * first output line of the tracking-branch query, whose exit code is not
   * looked at; no output at all is an error.
   */
  function ResolveUpstream(override: string, repo: string, run: Effect -> Reply): (r: Result<string, Error>)
    ensures override != "" ==> r == Success(override)
    ensures override == "" ==>
      (r.Success? <==> run(RevParseUpstream(repo)).lines != []) &&
      (r.Success? ==> r.value == run(RevParseUpstream(repo)).lines[0]) &&
      (r.Failure? ==> r.error == NoQueryOutput(repo))
  {
    if override != "" then Success(override)
    else
      var output := run(RevParseUpstream(repo)).lines;
      if output == [] then Failure(NoQueryOutput(repo)) else Success(output[0])
  }

  /** An override makes the upstream independent of whatever the query would answer. */
  lemma OverrideIgnoresQuery(override: string, repo: string, run1: Effect -> Reply, run2: Effect -> Reply)
    requires override != ""
    ensures ResolveUpstream(override, repo, run1) == ResolveUpstream(override, repo, run2) == Success(override)
    ensures UpstreamQueries(override, repo) == []
  {
  }

  /** Resolves the upstream through the runner, issuing the query only when needed. */
  method GetUpstream(sh: Shell, override: string, repo: string) returns (r: Result<string, Error>)
    modifies sh
    ensures sh.effects == old(sh.effects) + UpstreamQueries(override, repo)
    ensures r == ResolveUpstream(override, repo, sh.run)
  {
    if override == "" {
      var reply := sh.Execute(RevParseUpstream(repo));
      if reply.lines == [] {
        return Failure(NoQueryOutput(repo));
      }
      return Success(reply.lines[0]);
    }
    return Success(override);
  }

  /** Sequence concatenation regrouped. */
  lemma AppendAssoc3<T>(a: seq<T>, b: seq<T>, c: seq<T>)
    ensures (a + b) + c == a + (b + c)
  {
  }
}
