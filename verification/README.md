# gitsync in Dafny

gitsync mirrors every Bitbucket repository an account can see into a local
directory tree. It lists the account's workspaces, lists each workspace's
repositories, and submits one task per repository to a worker pool. A task
creates `<output dir>/<workspace>/<repository>`, runs `git init` there when
`os.Stat` reports that its `.git` does not exist, and then runs `git pull`
from the repository's HTTPS clone URL, with the OAuth access token in place
of the account user name. Because the program pulls from that URL instead of
cloning it, the URL is never written to `.git/config`. A repository
whose pull reports an error is appended to a failed list. At the end the run
logs how many pulls failed and the name of each failed repository.

The model has three modules:

- `GoStrings` holds the three functions of Go's `strings` package that the
  client depends on:
  - `Index`;
  - `Replace` with a count of one, as `Replace1`;
  - `Trim`, built from `TrimLeft` and `TrimRight`.

  Each is stated against an independent characterisation: first occurrence,
  and trimmed-at-both-ends.
- `GitClient` covers the client's local logic:
  - picking the HTTPS clone link (`HttpsHref`, `CloneLink`);
  - building the authenticated URL (`OAuthLink`);
  - the init-then-pull sequence (`Pull`).

  What `os.Stat`, `git init` and `git pull` report for a path is an input,
  `GitOracle`. `Pull` returns the output, the error flag, and the git
  commands it ran, in order.
- `Sync` covers `pullRepositories`, run sequentially. The API's answers, the
  directory-creation outcome and git's outcome are fields of `World`; the
  dry-run flag and the output root are fields of `Config`.
  - The run produces a `Run`: how it ended, the submitted tasks, the failed
    list and the side effects (directories created, git commands run).
  - `Enumerated`, `Failures` and `Effects` are the reference definitions the
    method is proved against.

A listing error goes through `logger.Panic` on the enumerating goroutine, so
it ends the run; the model records it as `Panicked`. A directory-creation
error panics inside a pool task instead. The pool's default panic handler
recovers that panic, so only that task ends: the repository is neither
pulled nor recorded as failed.

## Model

| member | source | states |
|---|---|---|
| GoStrings.Index | gitclient.go:76 | the position found is -1 or one where the whole pattern fits in the string (its full meaning is `IndexFindsFirst`) |
| GoStrings.IndexFindsFirst | gitclient.go:76 | `Index` gives the leftmost occurrence of the pattern, and -1 exactly when the pattern does not occur |
| GoStrings.Replace1ReplacesFirst | gitclient.go:76 | replace-first semantics: with no occurrence the string is unchanged; otherwise only the first occurrence is replaced and the length grows by the length of `repl` less that of `pat`; an empty pattern puts `repl` in front |
| GoStrings.Replace1AtFirst | gitclient.go:76 | with a first occurrence at `j`, the result is the prefix before `j`, then `repl`, then the rest after the match, also when pattern and replacement are equal |
| GoStrings.Replace1KeepsLaterOccurrences | gitclient.go:76 | occurrences after the first survive the replacement, shifted by the change in length |
| GoStrings.Replace1InsertsAtFirst | gitclient.go:76 | the text before the first occurrence is kept, and `repl` stands where the match started |
| GoStrings.LeadingCut | gitclient.go:100 | counts the leading cut-set characters: every one before the count is in the cut set, and the next one is not |
| GoStrings.TrailingCut | gitclient.go:100 | counts the trailing cut-set characters: every one after the kept part is in the cut set, and the last kept one is not |
| GoStrings.Trim | gitclient.go:100-103 | the result is a contiguous slice of the input; everything before and after it is in the cut set; and it neither starts nor ends with a cut-set character |
| GoStrings.TrimIdempotent | gitclient.go:100-103 | trimming twice equals trimming once |
| GitClient.HttpsHrefIsLastMatch | gitclient.go:117-121 | the last link named "https" decides the href: later matches overwrite earlier ones |
| GitClient.HttpsHrefWithoutMatch | gitclient.go:113-123 | with no link named "https", the href is the empty string |
| GitClient.CloneLink | gitclient.go:109-124 | the loop over the clone links computes the href of the last "https" link; a repository without clone links gives "" |
| GitClient.OAuthLinkReplacesFirstUser | gitclient.go:73-77 | the URL is the clone link with `x-token-auth:<token>` in place of the first occurrence of the user name. A link without the user name is used unchanged; an empty user name prepends the key. Lengths add up |
| GitClient.OAuthLinkCarriesToken | gitclient.go:73-77 | when the user name occurs in the clone link, the URL contains `x-token-auth:<token>` |
| GitClient.GitCommands | gitclient.go:88-98 | `git init` runs exactly when `os.Stat` reports that `<path>/.git` does not exist (a `.git` file or another Stat error skips it); the pull from the OAuth link runs exactly when init was not needed or succeeded; no other command runs; init comes first |
| GitClient.Pull | gitclient.go:79-104 | a failed init returns init's output and error without pulling. Otherwise it pulls from `OAuthLink` and returns the pull's output trimmed of spaces and newlines, with an error exactly when the pull failed. That output has no space or newline at either end, and trimming it again changes nothing |
| Sync.EnumeratedCount | main.go:53-60 | when every listing succeeds there is one task per repository: the count is the sum of the list lengths |
| Sync.EnumeratedAppend | main.go:53-60 | the workspaces are enumerated in order: the tasks of earlier workspaces come first |
| Sync.EnumeratedStopsAtFailure | main.go:54-57 | nothing is submitted after a workspace whose repository listing fails |
| Sync.EnumeratedAt | main.go:53-61 | the `j`-th repository of the `i`-th workspace is submitted at position (repositories of earlier workspaces) + `j` |
| Sync.FailuresFilter | main.go:87-94 | the failed list holds exactly the tasks whose pull fails, each as often as it was submitted (no deduplication) |
| Sync.FailuresBounded | main.go:44-94 | the failed list is never longer than the task list, and is as long only when every task fails |
| Sync.FailuresAppend | main.go:87-94 | the failed list is append-only: later tasks only add entries after the earlier ones |
| Sync.EffectsPullWithOAuthLink | main.go:70-87 | every pull performed is that of a submitted repository, into its own directory, from that repository's OAuth link |
| Sync.ReportFailures | main.go:104-107 | the report gives the number of failed pulls and one `>> <full name>` line per failed repository, in list order |
| Sync.RunTask | main.go:64-96 | in dry-run mode a task does nothing and does not fail. Otherwise it creates the directory and, if that works, pulls; it reports a failure exactly when the pull errs, and its side effects are `TaskEffects` |
| Sync.SubmitRepositories | main.go:60-97 | one task per repository, in list order, is appended to the submitted tasks; the failed list and the side effects stay those of the submitted tasks |
| Sync.PullRepositories | main.go:15-114 | a workspace-listing error stops the run before anything is submitted. Tasks are submitted in enumeration order; a repository-listing error stops the run after the earlier workspaces' tasks, naming the first workspace whose listing failed; the run completes exactly when every listing succeeds. Dry run performs no side effect and fails nothing. Otherwise the failed list is `Failures` and the side effects are `Effects`, both of the submitted tasks. The report gives the count and the lines |

## Left out

- The Bitbucket API is an input, `World`. That covers the OAuth token request in `NewBitbucketClient` and the workspace and repository listing calls. The client's user, key, secret and token are fields of `Client`.
- `exec.Command("git", ...)`, `os.Stat` and `os.MkdirAll` are not run. What they report for a path is an input (`GitOracle`, `World.mkdirFails`); the commands they would run are recorded as `Effect`s.
- The worker pool (`pond`, 7 workers) and the mutex are left out. Tasks run one after another in submission order. In the program they run concurrently, so the order of the failed list is not determined.
- Sync.PullRepositories: on a `Panicked` run its contract still gives the failed list and the side effects as those of every submitted task. The model runs each task when it is submitted, so a repository-listing panic comes after all earlier tasks ran. In the program that panic ends the process without reaching `pool.StopAndWait` (main.go:55-56, 100), so queued and running tasks may be dropped or cut off, and the failed list is never reported.
- The pool's recovery of a task's panic is assumed from the pool's default panic handler: a directory-creation failure ends only its own task.
- The JSON round trip in `cloneLink` is taken to give the "clone" links as listed. A missing "clone" entry gives no links. Marshalling errors, which the code ignores, are left out.
- `RepoPath` joins the output directory and the full name with "/". `filepath.Join`'s cleaning of `.`, `..` and repeated separators is left out.
- Go strings are byte strings; they are modelled as Dafny strings, since the client only searches, replaces and trims ASCII text.
- `logging.go`, and every log line other than the final report, are left out. That includes "Starting gitsync", "Dry run", "Pull", "Init", "Pull failed" with the pull's output, and "Completed gitsync". The logger wraps its arguments in a single slice, so its printed text is bracketed; the report is modelled as the count and the `>> ` lines.
- `config.go`, which reads the environment, is left out; the output directory is a field of `Config`. `main.go` reads `config.IsDryRun`, but the `Config` struct of `config.go` declares no such field. The flag is modelled as a field of `Config` and is otherwise left as an input.
- Within this repository, `NewBitbucketClient` never returns an error, so its `logger.Panic` branch is not modelled.
- `gitclient.go` and `main.go` only pull; there is no backup or re-clone step.
- A directory-creation failure panics inside its task (main.go:71-73) and is not added to the failed list.
