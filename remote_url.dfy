/**
  Normalisation of the "origin" remote's URL into the web base URL that the
  changelog links commits under (`parseRemoteURL` in cmd/root.go).

  Two forms are accepted, `https://host/ws/repo[.git]` and the scp-like SSH form
  `git@host:ws/repo[.git]`; both normalise to `https://host/ws/repo`.
 */
module RemoteUrl {
  import opened Wrappers
  import opened GoStrings

  const HttpsPrefix := "https://"
  const SshPrefix := "git@"
  const GitSuffix := ".git"

  /** The two failures of parseRemoteURL; each carries the URL it was given. */
  datatype UrlError = InvalidStructure(url: string) | UnsupportedStructure(url: string)
  {
    /** The text of the Go error value. */
    function Message(): (m: string)
      ensures HasSuffix(m, url)
      ensures InvalidStructure? <==> HasPrefix(m, "invalid ")
    {
      match this
      case InvalidStructure(u) => "invalid remote url structure: " + u
      case UnsupportedStructure(u) =>
        var m := "unsupported remote url structure: " + u;
        assert m[0] == 'u';
        m
    }
  }

  /** `fmt.Sprintf("%s/%s/%s", baseURL, ws, repoName)` */
  function RepoURL(baseURL: string, ws: string, repoName: string): string {
    baseURL + "/" + ws + "/" + repoName
  }

  /** parseRemoteURL: the web base URL of a remote, or why it cannot be derived. */
  function ParseRemoteURL(url: string): (r: Result<string, UrlError>)
    ensures r.Ok? ==> HasPrefix(r.value, HttpsPrefix)
    ensures r.Err? ==> r.error.url == url
    ensures r.Err? && r.error.UnsupportedStructure? <==>
              !HasPrefix(url, HttpsPrefix) && !HasPrefix(url, SshPrefix)
  {
    if HasPrefix(url, HttpsPrefix) then
      var parts := Split(TrimPrefix(url, HttpsPrefix), '/');
      if |parts| < 3 then Err(InvalidStructure(url))
      else Ok(RepoURL(HttpsPrefix + parts[0], parts[1], TrimSuffix(parts[2], GitSuffix)))
    else if HasPrefix(url, SshPrefix) then
      var parts := Split(TrimPrefix(url, SshPrefix), ':');
      if |parts| < 2 then Err(InvalidStructure(url))
      else
        var repoParts := Split(parts[1], '/');
        if |repoParts| < 2 then Err(InvalidStructure(url))
        else Ok(RepoURL(HttpsPrefix + parts[0], repoParts[0], TrimSuffix(repoParts[1], GitSuffix)))
    else
      Err(UnsupportedStructure(url))
  }

  /** An HTTPS remote is parsed from the `/`-separated pieces of what follows the scheme. */
  lemma HttpsParse(rest: string)
    ensures var parts := Split(rest, '/');
            ParseRemoteURL(HttpsPrefix + rest)
            == if |parts| < 3 then Err(InvalidStructure(HttpsPrefix + rest))
               else Ok(RepoURL(HttpsPrefix + parts[0], parts[1], TrimSuffix(parts[2], GitSuffix)))
  {
    var url := HttpsPrefix + rest;
    assert url[..|HttpsPrefix|] == HttpsPrefix;
    assert url[|HttpsPrefix|..] == rest;
  }

  /** The pieces of `host/ws/repo...` start with the three segments. */
  lemma ThreeSegments(host: string, ws: string, repo: string, tail: string)
    requires '/' !in host && '/' !in ws && '/' !in repo
    requires tail == [] || tail[0] == '/'
    ensures var parts := Split(host + "/" + ws + "/" + repo + tail, '/');
            |parts| >= 3 && parts[0] == host && parts[1] == ws && parts[2] == repo
  {
    assert host + "/" + ws + "/" + repo + tail == host + ['/'] + (ws + ['/'] + (repo + tail));
    SplitAppend(host, '/', ws + ['/'] + (repo + tail));
    SplitAppend(ws, '/', repo + tail);
    SplitHead(repo, '/', tail);
  }

  /**
    An HTTPS remote `https://host/ws/repo` normalises to itself without a
    trailing `.git`; whatever follows the repo segment (a further `/...`) is ignored.
   */
  lemma HttpsRemote(host: string, ws: string, repo: string, tail: string)
    requires '/' !in host && '/' !in ws && '/' !in repo
    requires tail == [] || tail[0] == '/'
    ensures ParseRemoteURL(HttpsPrefix + (host + "/" + ws + "/" + repo + tail))
            == Ok(RepoURL(HttpsPrefix + host, ws, TrimSuffix(repo, GitSuffix)))
  {
    var rest := host + "/" + ws + "/" + repo + tail;
    HttpsParse(rest);
    ThreeSegments(host, ws, repo, tail);
  }

  /** An HTTPS remote is rejected as invalid exactly when it has fewer than two `/` after the scheme. */
  lemma HttpsInvalid(url: string)
    requires HasPrefix(url, HttpsPrefix)
    ensures ParseRemoteURL(url).Err? ==> ParseRemoteURL(url) == Err(InvalidStructure(url))
    ensures ParseRemoteURL(url).Err? <==> Count(url[|HttpsPrefix|..], '/') < 2
  {
  }

  /** An SSH remote is parsed from the `:`-separated pieces of what follows `git@`. */
  lemma SshParse(rest: string)
    ensures var parts := Split(rest, ':');
            ParseRemoteURL(SshPrefix + rest)
            == if |parts| < 2 then Err(InvalidStructure(SshPrefix + rest))
               else
                 var repoParts := Split(parts[1], '/');
                 if |repoParts| < 2 then Err(InvalidStructure(SshPrefix + rest))
                 else Ok(RepoURL(HttpsPrefix + parts[0], repoParts[0], TrimSuffix(repoParts[1], GitSuffix)))
  {
    var url := SshPrefix + rest;
    assert url[..|SshPrefix|] == SshPrefix;
    assert url[|SshPrefix|..] == rest;
    assert !HasPrefix(url, HttpsPrefix) by { assert url[0] == 'g'; }
  }

  /**
    An SSH remote `git@host:ws/repo` normalises to `https://host/ws/repo` without a
    trailing `.git`. What follows the repo segment up to the next `:` (a further
    `/...`), and everything from that `:` on, is ignored.
   */
  lemma SshRemote(host: string, ws: string, repo: string, repoTail: string, tail: string)
    requires ':' !in host && ':' !in ws && ':' !in repo && ':' !in repoTail
    requires '/' !in ws && '/' !in repo
    requires repoTail == [] || repoTail[0] == '/'
    requires tail == [] || tail[0] == ':'
    ensures ParseRemoteURL(SshPrefix + (host + ":" + (ws + "/" + repo + repoTail) + tail))
            == Ok(RepoURL(HttpsPrefix + host, ws, TrimSuffix(repo, GitSuffix)))
  {
    var path := ws + "/" + repo + repoTail;
    var rest := host + ":" + path + tail;
    SshParse(rest);
    SplitPair(host, ':', path, tail);
    SplitPair(ws, '/', repo, repoTail);
  }

  /**
    An SSH remote is rejected as invalid exactly when there is no `:` after `git@`,
    or when the text between the first and the second `:` has no `/`.
   */
  lemma SshInvalid(url: string)
    requires HasPrefix(url, SshPrefix)
    ensures ParseRemoteURL(url).Err? ==> ParseRemoteURL(url) == Err(InvalidStructure(url))
    ensures ParseRemoteURL(url).Err? <==>
              var rest := url[|SshPrefix|..];
              ':' !in rest || '/' !in Split(rest, ':')[1]
  {
    assert !HasPrefix(url, HttpsPrefix) by { assert url[0] == 'g'; }
  }

  /** `https://host` with no further `/` lacks the workspace and repo segments. */
  lemma HttpsHostOnly(host: string)
    requires '/' !in host
    ensures ParseRemoteURL(HttpsPrefix + host) == Err(InvalidStructure(HttpsPrefix + host))
  {
    HttpsParse(host);
  }

  /** `git@host:repo` with no `/` in the path lacks the workspace segment. */
  lemma SshNoWorkspace(host: string, repo: string)
    requires ':' !in host && ':' !in repo && '/' !in repo
    ensures ParseRemoteURL(SshPrefix + (host + ":" + repo))
            == Err(InvalidStructure(SshPrefix + (host + ":" + repo)))
  {
    var rest := host + ":" + repo;
    SshParse(rest);
    SplitPair(host, ':', repo, []);
    assert host + ":" + repo + [] == rest;
  }

  /**
    Split cuts at every `:`, so in `git@host:first:second` the path is `first`
    alone: without a `/` in it the remote is invalid, whatever `second` holds.
   */
  lemma SshSecondColon(host: string, first: string, second: string)
    requires ':' !in host && ':' !in first && '/' !in first
    ensures ParseRemoteURL(SshPrefix + (host + ":" + first + (":" + second)))
            == Err(InvalidStructure(SshPrefix + (host + ":" + first + (":" + second))))
  {
    var rest := host + ":" + first + (":" + second);
    SshParse(rest);
    SplitPair(host, ':', first, ":" + second);
    SplitNoSep(first, '/');
  }
}
