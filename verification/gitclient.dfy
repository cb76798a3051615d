/** The Bitbucket client's local logic: picking the HTTPS clone link of a
    repository, putting the OAuth token into it, and the init-then-pull
    sequence run for one local path. The API calls and the git and
    filesystem commands are outside the model; what they report is given
    as input (`GitOracle`). */
module GitClient {
  import opened GoStrings

  /** One entry of a repository's "clone" links as the API lists it. */
  datatype Link = Link(name: string, href: string)

  /** A repository as listed by the API: its full name ("workspace/slug") and
      its links, grouped by kind ("clone", "html", ...). */
  datatype Repository = Repository(fullName: string, links: map<string, seq<Link>>)

  /** The client's account user name, OAuth consumer key and secret, and the
      access token obtained for them when the client was created. */
  datatype Client = Client(user: string, key: string, secret: string, token: string)

  const HttpsName := "https"

  /** The user name under which the token is accepted in an HTTPS URL. */
  const TokenUser := "x-token-auth:"

  /** The repository's clone links; a repository without any has none. */
  function CloneLinks(repo: Repository): seq<Link>
  {
    if "clone" in repo.links then repo.links["clone"] else []
  }

  /** The href of the last link named "https", or "" when no link has that name. */
  function HttpsHref(links: seq<Link>): string
  {
    if links == [] then ""
    else if links[|links| - 1].name == HttpsName then links[|links| - 1].href
    else HttpsHref(links[..|links| - 1])
  }

  /** A link named "https" that no later "https" link follows decides the
      result: later matches overwrite earlier ones. */
  lemma {:induction false} HttpsHrefIsLastMatch(links: seq<Link>, k: int)
    requires 0 <= k < |links| && links[k].name == HttpsName
    requires forall i :: k < i < |links| ==> links[i].name != HttpsName
    ensures HttpsHref(links) == links[k].href
  {
    if k < |links| - 1 {
      var prefix := links[..|links| - 1];
      assert forall i :: k < i < |prefix| ==> prefix[i] == links[i];
      HttpsHrefIsLastMatch(prefix, k);
    }
  }

  /** Without any link named "https" the result is the empty string. */
  lemma {:induction false} HttpsHrefWithoutMatch(links: seq<Link>)
    requires forall i :: 0 <= i < |links| ==> links[i].name != HttpsName
    ensures HttpsHref(links) == ""
  {
    if links != [] {
      var prefix := links[..|links| - 1];
      assert forall i :: 0 <= i < |prefix| ==> prefix[i] == links[i];
      HttpsHrefWithoutMatch(prefix);
    }
  }

  /** cloneLink: scan the clone links, remembering the href of each "https" one. */
  method CloneLink(repo: Repository) returns (href: string)
    ensures href == HttpsHref(CloneLinks(repo))
  {
    var links := CloneLinks(repo);
    href := "";
    for i := 0 to |links|
      invariant href == HttpsHref(links[..i])
    {
      assert links[..i + 1][..i] == links[..i];
      if links[i].name == HttpsName {
        href := links[i].href;
      }
    }
    assert links[..|links|] == links;
  }

  /** oAuthLink: the HTTPS clone link with the first occurrence of the account
      user name replaced by "x-token-auth:" followed by the token. */
  function OAuthLink(c: Client, repo: Repository): string
  {
    Replace1(HttpsHref(CloneLinks(repo)), c.user, TokenUser + c.token)
  }

  /** The authenticated URL is the clone link with the token key in place of
      the first occurrence of the user name; a link without the (non-empty)
      user name is used as it is, and an empty user name puts the key in front. */
  lemma OAuthLinkReplacesFirstUser(c: Client, repo: Repository)
    ensures var link, key, url := HttpsHref(CloneLinks(repo)), TokenUser + c.token, OAuthLink(c, repo);
      && (c.user == [] ==> url == key + link)
      && (!Contains(link, c.user) ==> url == link)
      && (forall j :: FirstOccurrence(link, c.user, j) ==>
            url == link[..j] + key + link[j + |c.user|..] &&
            |url| == |link| - |c.user| + |key|)
  {
    var link, key := HttpsHref(CloneLinks(repo)), TokenUser + c.token;
    Replace1ReplacesFirst(link, c.user, key);
    forall j | FirstOccurrence(link, c.user, j) ensures Contains(link, c.user) {
      assert j <= |link|;
    }
  }

  /** Whenever the user name occurs in the clone link, the authenticated URL
      carries the token, right where the user name first stood. */
  lemma OAuthLinkCarriesToken(c: Client, repo: Repository)
    requires Contains(HttpsHref(CloneLinks(repo)), c.user)
    ensures Contains(OAuthLink(c, repo), TokenUser + c.token)
  {
    var link := HttpsHref(CloneLinks(repo));
    IndexFindsFirst(link, c.user);
    var j := Index(link, c.user);
    Replace1InsertsAtFirst(link, c.user, TokenUser + c.token, j);
    assert j <= |OAuthLink(c, repo)|;
  }

  /** What running one command reported: its combined output and whether it
      finished without error. */
  datatype Exec = Exec(output: string, ok: bool)

  /** What the outside world answers for one local path: whether `os.Stat`
      reports that `<path>/.git` does not exist (any other answer, a `.git`
      file or a permission error included, counts as present), and how
      `git init` and `git pull` would end there. */
  datatype GitOracle = GitOracle(gitDirNotExist: bool, init: Exec, pull: Exec)

  /** The git commands that `Pull` runs. */
  datatype Command = Init(path: string) | PullFrom(path: string, url: string)

  /** The characters trimmed from the output of a pull. */
  const OutputCutset := " \n"

  /** shouldInit: `os.Stat` reports that `<path>/.git` does not exist. */
  predicate ShouldInit(g: GitOracle)
  {
    g.gitDirNotExist
  }

  predicate InitFails(g: GitOracle)
  {
    ShouldInit(g) && !g.init.ok
  }

  /** `Pull` reports an error: either the needed init failed, or the pull did. */
  predicate PullFails(g: GitOracle)
  {
    InitFails(g) || !g.pull.ok
  }

  /** The commands `Pull` runs for `path`, in order. */
  function GitCommands(c: Client, path: string, repo: Repository, g: GitOracle): (cmds: seq<Command>)
    ensures Init(path) in cmds <==> ShouldInit(g)
    ensures PullFrom(path, OAuthLink(c, repo)) in cmds <==> !InitFails(g)
    ensures forall cmd :: cmd in cmds ==> cmd == Init(path) || cmd == PullFrom(path, OAuthLink(c, repo))
    ensures cmds != [] && (ShouldInit(g) ==> cmds[0] == Init(path))
  {
    (if ShouldInit(g) then [Init(path)] else []) +
    (if InitFails(g) then [] else [PullFrom(path, OAuthLink(c, repo))])
  }

  /** Pull: initialise the working copy when `<path>/.git` does not exist, giving up
      with init's own output when that fails; then pull from the authenticated
      URL and return the pull's output trimmed of spaces and newlines. */
  method Pull(c: Client, path: string, repo: Repository, g: GitOracle)
    returns (out: string, err: bool, cmds: seq<Command>)
    ensures cmds == GitCommands(c, path, repo, g)
    ensures err <==> PullFails(g)
    ensures InitFails(g) ==> cmds == [Init(path)] && out == g.init.output
    ensures !InitFails(g) ==> cmds[|cmds| - 1] == PullFrom(path, OAuthLink(c, repo))
    ensures !InitFails(g) ==> out == Trim(g.pull.output, OutputCutset)
    ensures !InitFails(g) ==> out == [] || (out[0] !in OutputCutset && out[|out| - 1] !in OutputCutset)
    ensures !InitFails(g) ==> Trim(out, OutputCutset) == out
  {
    cmds := [];
    if ShouldInit(g) {
      cmds := cmds + [Init(path)];
      if !g.init.ok {
        return g.init.output, true, cmds;
      }
    }
    var url := OAuthLink(c, repo);
    cmds := cmds + [PullFrom(path, url)];
    out := Trim(g.pull.output, OutputCutset);
    TrimIdempotent(g.pull.output, OutputCutset);
    err := !g.pull.ok;
  }
}
