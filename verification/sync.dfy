/** pullRepositories, run sequentially: list the workspaces, list each
    workspace's repositories, and for every repository create its directory
    under the output root and pull it, recording the repositories whose pull
    reports an error; then report how many failed and which.
    The worker pool is replaced by running each task as it is submitted. */
module Sync {
  import opened GitClient

  datatype Workspace = Workspace(slug: string)

  /** The answer of one listing call to the hosting API. */
  datatype Listing<T> = Listed(items: seq<T>) | ListFailed

  /** The settings the run reads: the output root and the dry-run flag. */
  datatype Config = Config(outputDir: string, isDryRun: bool)

  /** What the run learns from outside: the API's listings, whether creating a
      directory fails, and what git reports for each local path. */
  datatype World = World(
    workspaces: Listing<Workspace>,
    repositories: Workspace -> Listing<Repository>,
    mkdirFails: string -> bool,
    git: string -> GitOracle)

  /** A side effect on the local machine. */
  datatype Effect = MakeDir(path: string) | RunGit(cmd: Command)

  /** Why the run stopped through the logger's panic on the enumerating goroutine. */
  datatype Panic = WorkspaceListFailed | RepositoryListFailed(workspace: Workspace)

  /** The closing summary: the number of failed pulls and one line per failed repository. */
  datatype Report = Report(failedCount: nat, lines: seq<string>)

  datatype Outcome = Completed(report: Report) | Panicked(cause: Panic)

  /** A whole run: how it ended, the tasks submitted (in order), the failed
      list, and the side effects performed (in order). */
  datatype Run = Run(outcome: Outcome, dispatched: seq<Repository>, failed: seq<Repository>, effects: seq<Effect>)

  const FailedLinePrefix := ">> "

  /** The local directory of a repository: the output root joined with its full name. */
  function RepoPath(outputDir: string, fullName: string): string
  {
    if outputDir == "" then fullName else outputDir + "/" + fullName
  }

  predicate AllListed(ws: seq<Workspace>, repositories: Workspace -> Listing<Repository>)
  {
    forall i :: 0 <= i < |ws| ==> repositories(ws[i]).Listed?
  }

  /** The repositories in the order they are submitted: workspace by workspace,
      each in the order listed, up to the first workspace whose listing fails. */
  function Enumerated(ws: seq<Workspace>, repositories: Workspace -> Listing<Repository>): seq<Repository>
  {
    if ws == [] then []
    else match repositories(ws[0])
      case ListFailed => []
      case Listed(rs) => rs + Enumerated(ws[1..], repositories)
  }

  /** The sum of the lengths of the listed repository lists. */
  function TotalRepositories(ws: seq<Workspace>, repositories: Workspace -> Listing<Repository>): nat
  {
    if ws == [] then 0
    else
      var n := match repositories(ws[0]) case Listed(rs) => |rs| case ListFailed => 0;
      n + TotalRepositories(ws[1..], repositories)
  }

  /** When every listing succeeds, one task per listed repository. */
  lemma {:induction false} EnumeratedCount(ws: seq<Workspace>, repositories: Workspace -> Listing<Repository>)
    requires AllListed(ws, repositories)
    ensures |Enumerated(ws, repositories)| == TotalRepositories(ws, repositories)
  {
    if ws != [] {
      assert AllListed(ws[1..], repositories) by {
        forall i | 0 <= i < |ws[1..]| ensures repositories(ws[1..][i]).Listed? {
          assert ws[1..][i] == ws[i + 1];
        }
      }
      EnumeratedCount(ws[1..], repositories);
    }
  }

  /** Enumeration runs workspace after workspace: the workspaces listed first
      contribute their repositories first. */
  lemma {:induction false} EnumeratedAppend(ws1: seq<Workspace>, ws2: seq<Workspace>, repositories: Workspace -> Listing<Repository>)
    requires AllListed(ws1, repositories)
    ensures Enumerated(ws1 + ws2, repositories) == Enumerated(ws1, repositories) + Enumerated(ws2, repositories)
  {
    if ws1 != [] {
      assert (ws1 + ws2)[1..] == ws1[1..] + ws2;
      assert AllListed(ws1[1..], repositories) by {
        forall i | 0 <= i < |ws1[1..]| ensures repositories(ws1[1..][i]).Listed? {
          assert ws1[1..][i] == ws1[i + 1];
        }
      }
      EnumeratedAppend(ws1[1..], ws2, repositories);
    } else {
      assert ws1 + ws2 == ws2;
    }
  }

  /** A failing listing ends the enumeration: nothing after it is submitted. */
  lemma EnumeratedStopsAtFailure(ws: seq<Workspace>, k: int, repositories: Workspace -> Listing<Repository>)
    requires 0 <= k < |ws| && AllListed(ws[..k], repositories) && repositories(ws[k]).ListFailed?
    ensures Enumerated(ws, repositories) == Enumerated(ws[..k], repositories)
  {
    assert ws == ws[..k] + ws[k..];
    EnumeratedAppend(ws[..k], ws[k..], repositories);
  }

  /** The `j`-th repository of the `i`-th workspace is submitted right after
      every repository of the workspaces before it. */
  lemma EnumeratedAt(ws: seq<Workspace>, repositories: Workspace -> Listing<Repository>, i: int, j: int)
    requires AllListed(ws, repositories)
    requires 0 <= i < |ws| && 0 <= j < |repositories(ws[i]).items|
    ensures var n := TotalRepositories(ws[..i], repositories);
      n + j < |Enumerated(ws, repositories)| &&
      Enumerated(ws, repositories)[n + j] == repositories(ws[i]).items[j]
  {
    assert ws == ws[..i] + ws[i..];
    assert AllListed(ws[..i], repositories) by {
      forall k | 0 <= k < i ensures repositories(ws[..i][k]).Listed? {
        assert ws[..i][k] == ws[k];
      }
    }
    EnumeratedAppend(ws[..i], ws[i..], repositories);
    EnumeratedCount(ws[..i], repositories);
    assert ws[i..][0] == ws[i];
  }

  /** Outside dry-run mode, the task of `r` records a failure: its directory
      could be created and its pull reports an error. A task whose directory
      cannot be created panics; the pool recovers that panic, so the task just
      ends, without pulling and without recording a failure. */
  predicate Fails(cfg: Config, world: World, r: Repository)
  {
    var path := RepoPath(cfg.outputDir, r.fullName);
    !world.mkdirFails(path) && PullFails(world.git(path))
  }

  /** The failed list after pulling `tasks` in order: each failing repository
      is appended as it fails. */
  function Failures(cfg: Config, world: World, tasks: seq<Repository>): seq<Repository>
  {
    if tasks == [] then []
    else
      var prev, r := Failures(cfg, world, tasks[..|tasks| - 1]), tasks[|tasks| - 1];
      if Fails(cfg, world, r) then prev + [r] else prev
  }

  /** The failed list holds exactly the failing tasks, each as often as it was
      submitted: there is no deduplication. */
  lemma {:induction false} FailuresFilter(cfg: Config, world: World, tasks: seq<Repository>)
    ensures forall r :: r in Failures(cfg, world, tasks) <==> r in tasks && Fails(cfg, world, r)
    ensures forall r :: multiset(Failures(cfg, world, tasks))[r] ==
                        if Fails(cfg, world, r) then multiset(tasks)[r] else 0
  {
    if tasks != [] {
      var prefix := tasks[..|tasks| - 1];
      assert tasks == prefix + [tasks[|tasks| - 1]];
      FailuresFilter(cfg, world, prefix);
    }
  }

  /** The failed list is never longer than the task list, and as long exactly
      when every task fails. */
  lemma {:induction false} FailuresBounded(cfg: Config, world: World, tasks: seq<Repository>)
    ensures |Failures(cfg, world, tasks)| <= |tasks|
    ensures |Failures(cfg, world, tasks)| == |tasks| <==> forall i :: 0 <= i < |tasks| ==> Fails(cfg, world, tasks[i])
  {
    if tasks != [] {
      var prefix := tasks[..|tasks| - 1];
      FailuresBounded(cfg, world, prefix);
      assert forall i :: 0 <= i < |prefix| ==> prefix[i] == tasks[i];
    }
  }

  /** The failed list only grows: pulling more tasks appends to it and never
      removes or changes an earlier entry. */
  lemma {:induction false} FailuresAppend(cfg: Config, world: World, a: seq<Repository>, b: seq<Repository>)
    ensures Failures(cfg, world, a + b) == Failures(cfg, world, a) + Failures(cfg, world, b)
  {
    if b != [] {
      var b' := b[..|b| - 1];
      assert (a + b)[..|a + b| - 1] == a + b';
      FailuresAppend(cfg, world, a, b');
    } else {
      assert a + b == a;
    }
  }

  /** Each command as a side effect. */
  function RunAll(cmds: seq<Command>): (effects: seq<Effect>)
    ensures |effects| == |cmds|
    ensures forall i :: 0 <= i < |cmds| ==> effects[i] == RunGit(cmds[i])
  {
    if cmds == [] then [] else [RunGit(cmds[0])] + RunAll(cmds[1..])
  }

  /** The side effects of one task outside dry-run mode: create the directory,
      then, if that worked, the git commands of the pull. */
  function TaskEffects(cfg: Config, client: Client, world: World, r: Repository): seq<Effect>
  {
    var path := RepoPath(cfg.outputDir, r.fullName);
    [MakeDir(path)] +
    if world.mkdirFails(path) then [] else RunAll(GitCommands(client, path, r, world.git(path)))
  }

  /** The side effects of running `tasks` in order outside dry-run mode. */
  function Effects(cfg: Config, client: Client, world: World, tasks: seq<Repository>): seq<Effect>
  {
    if tasks == [] then []
    else Effects(cfg, client, world, tasks[..|tasks| - 1]) + TaskEffects(cfg, client, world, tasks[|tasks| - 1])
  }

  /** Every pull the run performs is the pull of a submitted repository into
      its own directory, from that repository's authenticated URL. */
  lemma {:induction false} EffectsPullWithOAuthLink(cfg: Config, client: Client, world: World, tasks: seq<Repository>, e: Effect)
    requires e in Effects(cfg, client, world, tasks) && e.RunGit? && e.cmd.PullFrom?
    ensures exists r :: (r in tasks &&
      e.cmd == PullFrom(RepoPath(cfg.outputDir, r.fullName), OAuthLink(client, r)))
  {
    var prefix, r := tasks[..|tasks| - 1], tasks[|tasks| - 1];
    if e in Effects(cfg, client, world, prefix) {
      EffectsPullWithOAuthLink(cfg, client, world, prefix, e);
      var r' :| r' in prefix && e.cmd == PullFrom(RepoPath(cfg.outputDir, r'.fullName), OAuthLink(client, r'));
      assert r' in tasks;
    } else {
      var path := RepoPath(cfg.outputDir, r.fullName);
      var cmds := GitCommands(client, path, r, world.git(path));
      var effects := RunAll(cmds);
      assert !world.mkdirFails(path) && e in effects;
      var i :| 0 <= i < |effects| && effects[i] == e;
      assert cmds[i] in cmds;
    }
  }

  /** The final report: "Failed to pull: " with the count, then ">> " and the
      full name of each failed repository, in list order. */
  method ReportFailures(failed: seq<Repository>) returns (report: Report)
    ensures report.failedCount == |failed| && |report.lines| == |failed|
    ensures forall i :: 0 <= i < |failed| ==> report.lines[i] == FailedLinePrefix + failed[i].fullName
  {
    var lines: seq<string> := [];
    for i := 0 to |failed|
      invariant |lines| == i
      invariant forall k :: 0 <= k < i ==> lines[k] == FailedLinePrefix + failed[k].fullName
    {
      lines := lines + [FailedLinePrefix + failed[i].fullName];
    }
    report := Report(|failed|, lines);
  }

  /** The task submitted for one repository: outside dry-run mode, create its
      directory and, if that worked, pull it, reporting whether the pull failed. */
  method RunTask(cfg: Config, client: Client, world: World, r: Repository)
    returns (pullFailed: bool, effects: seq<Effect>)
    ensures cfg.isDryRun ==> !pullFailed && effects == []
    ensures !cfg.isDryRun ==> pullFailed == Fails(cfg, world, r) && effects == TaskEffects(cfg, client, world, r)
  {
    pullFailed, effects := false, [];
    if !cfg.isDryRun {
      var path := RepoPath(cfg.outputDir, r.fullName);
      effects := [MakeDir(path)];
      if world.mkdirFails(path) {
        // logger.Panic: the pool recovers it and the task ends here.
        return;
      }
      var out, err, cmds := Pull(client, path, r, world.git(path));
      effects := effects + RunAll(cmds);
      pullFailed := err;
    }
  }

  lemma TakeOneMore<T>(s: seq<T>, k: int)
    requires 0 <= k < |s|
    ensures s[..k + 1] == s[..k] + [s[k]]
  {
  }

  /** One more successfully listed workspace extends the enumeration by its repositories. */
  lemma EnumeratedStep(ws: seq<Workspace>, i: int, repositories: Workspace -> Listing<Repository>)
    requires 0 <= i < |ws| && AllListed(ws[..i], repositories) && repositories(ws[i]).Listed?
    ensures AllListed(ws[..i + 1], repositories)
    ensures Enumerated(ws[..i + 1], repositories) == Enumerated(ws[..i], repositories) + repositories(ws[i]).items
  {
    TakeOneMore(ws, i);
    EnumeratedAppend(ws[..i], [ws[i]], repositories);
    assert [ws[i]][1..] == [];
  }

  /** The run's bookkeeping so far: the tasks submitted, the failed list and
      the side effects performed. */
  datatype Progress = Progress(dispatched: seq<Repository>, failed: seq<Repository>, effects: seq<Effect>)

  /** The failed list and the side effects are those of the submitted tasks:
      none at all in dry-run mode. */
  predicate Consistent(cfg: Config, client: Client, world: World, p: Progress)
  {
    && (cfg.isDryRun ==> p.failed == [] && p.effects == [])
    && (!cfg.isDryRun ==>
          p.failed == Failures(cfg, world, p.dispatched) &&
          p.effects == Effects(cfg, client, world, p.dispatched))
  }

  /** The inner loop of pullRepositories: submit one task per repository of a
      workspace, in order, appending to the failed list each one whose pull fails. */
  method SubmitRepositories(cfg: Config, client: Client, world: World, repositories: seq<Repository>, p: Progress)
    returns (q: Progress)
    requires Consistent(cfg, client, world, p)
    ensures q.dispatched == p.dispatched + repositories
    ensures Consistent(cfg, client, world, q)
  {
    q := p;
    for j := 0 to |repositories|
      invariant q.dispatched == p.dispatched + repositories[..j]
      invariant Consistent(cfg, client, world, q)
    {
      var r := repositories[j];
      TakeOneMore(repositories, j);
      var dispatched := q.dispatched + [r];
      assert dispatched[..|dispatched| - 1] == q.dispatched;
      var pullFailed, taskEffects := RunTask(cfg, client, world, r);
      var failed := if pullFailed then q.failed + [r] else q.failed;
      q := Progress(dispatched, failed, q.effects + taskEffects);
    }
    assert repositories[..|repositories|] == repositories;
  }

  /** pullRepositories. */
  method PullRepositories(cfg: Config, client: Client, world: World) returns (run: Run)
    // A workspace-listing error stops the run before any task is submitted.
    ensures world.workspaces.ListFailed? ==> run == Run(Panicked(WorkspaceListFailed), [], [], [])
    // Tasks are submitted in enumeration order, one per listed repository;
    // a repository-listing error stops the run after the earlier workspaces' tasks.
    ensures world.workspaces.Listed? ==>
      var ws := world.workspaces.items;
      && run.dispatched == Enumerated(ws, world.repositories)
      && (run.outcome.Completed? <==> AllListed(ws, world.repositories))
      && (run.outcome.Completed? ==> |run.dispatched| == TotalRepositories(ws, world.repositories))
      && (run.outcome.Panicked? ==>
            && run.outcome.cause.RepositoryListFailed?
            && run.outcome.cause.workspace in ws
            && world.repositories(run.outcome.cause.workspace).ListFailed?
            // the cause is the first workspace whose listing fails
            && exists k :: 0 <= k < |ws| && ws[k] == run.outcome.cause.workspace &&
                 AllListed(ws[..k], world.repositories))
    // Dry run: nothing is created or pulled, and nothing fails.
    ensures cfg.isDryRun ==> run.failed == [] && run.effects == []
    // Otherwise each task creates its directory and pulls, and is recorded exactly when its pull fails.
    ensures !cfg.isDryRun ==>
      && run.failed == Failures(cfg, world, run.dispatched)
      && run.effects == Effects(cfg, client, world, run.dispatched)
    ensures |run.failed| <= |run.dispatched|
    // The report gives the count and the names of the failed list, in order.
    ensures run.outcome.Completed? ==>
      && run.outcome.report.failedCount == |run.failed|
      && |run.outcome.report.lines| == |run.failed|
      && forall i :: 0 <= i < |run.failed| ==>
           run.outcome.report.lines[i] == FailedLinePrefix + run.failed[i].fullName
  {
    if world.workspaces.ListFailed? {
      return Run(Panicked(WorkspaceListFailed), [], [], []);
    }
    var ws := world.workspaces.items;
    var progress := Progress([], [], []);
    for i := 0 to |ws|
      invariant AllListed(ws[..i], world.repositories)
      invariant progress.dispatched == Enumerated(ws[..i], world.repositories)
      invariant Consistent(cfg, client, world, progress)
    {
      var listing := world.repositories(ws[i]);
      if listing.ListFailed? {
        EnumeratedStopsAtFailure(ws, i, world.repositories);
        FailuresBounded(cfg, world, progress.dispatched);
        return Run(Panicked(RepositoryListFailed(ws[i])), progress.dispatched, progress.failed, progress.effects);
      }
      progress := SubmitRepositories(cfg, client, world, listing.items, progress);
      EnumeratedStep(ws, i, world.repositories);
    }
    assert ws[..|ws|] == ws;
    EnumeratedCount(ws, world.repositories);
    FailuresBounded(cfg, world, progress.dispatched);
    var report := ReportFailures(progress.failed);
    run := Run(Completed(report), progress.dispatched, progress.failed, progress.effects);
  }
}
