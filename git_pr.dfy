/** The platform logic of server/tools/git_pr.py: which forge a repository
    lives on, judged from `git remote -v`; which GitLab host the CLI is
    pointed at; and how the `state` and `method` arguments become `gh` and
    `glab` flags. Running the CLIs is outside the model; the output of
    `git remote -v` is an input (`Err(message)` when starting git raised). */
module GitPr {
  import opened Wrappers
  import opened Strings

  datatype Platform = GitHub | GitLab

  /** The host GitLab is reached at when nothing else is known. */
  const DefaultHost: string := "gitlab.com"

  /** The first remote line mentioning "gitlab", case-insensitively. */
  function FirstGitlabLine(lines: seq<string>): (r: Option<string>)
    ensures r.Some? ==> r.value in lines && Contains(Lower(r.value), "gitlab")
    ensures r.Some? ==>
      exists i :: 0 <= i < |lines| && lines[i] == r.value &&
        forall j :: 0 <= j < i ==> !Contains(Lower(lines[j]), "gitlab")
    ensures r.None? <==> forall k :: 0 <= k < |lines| ==> !Contains(Lower(lines[k]), "gitlab")
  {
    if |lines| == 0 then None
    else if Contains(Lower(lines[0]), "gitlab") then Some(lines[0])
    else FirstGitlabLine(lines[1..])
  }

  /** The host of a remote line, as the source reads it: the text after the
      first "@" up to the next "@" or ":" when the line has an "@" (the SSH
      form), else the text after the first "//" up to the next "/", else
      "gitlab.com". */
  function HostAsWritten(line: string): (r: string)
    ensures Contains(line, "@") ==> ':' !in r
    ensures !Contains(line, "@") ==> '/' !in r
    ensures !Contains(line, "@") && !Contains(line, "//") ==> r == DefaultHost
  {
    if Contains(line, "@") then
      SplitHasTwo(line, '@');
      SplitHeadLacks(Split(line, "@")[1], ':');
      Split(Split(line, "@")[1], ":")[0]
    else
      var parts := Split(line, "//");
      if |parts| > 1 then
        SplitHeadLacks(parts[1], '/');
        Split(parts[1], "/")[0]
      else DefaultHost
  }

  /** The host of a remote line, also cut at the first "/": an HTTPS remote
      with credentials (`https://user@host/group/repo.git`) has an "@" but no
      ":" after the host. */
  function HostCorrected(line: string): (r: string)
    ensures '/' !in r
  {
    SplitHeadLacks(HostAsWritten(line), '/');
    Split(HostAsWritten(line), "/")[0]
  }

  /** A string with the separator character in it splits into two pieces
      or more. */
  lemma SplitHasTwo(s: string, c: char)
    requires Contains(s, [c])
    ensures |Split(s, [c])| >= 2
  {
  }

  /** `_detect_platform(path)` with `hostOf` reading the host of a line:
      "github.com" anywhere wins; otherwise the first line mentioning
      "gitlab" decides, "gitlab.com" standing for no host; failure to run git
      and remotes naming neither forge mean GitHub. */
  function Detect(remotes: Result<string, string>, hostOf: string -> string): (r: (Platform, Option<string>))
    ensures remotes.Err? ==> r == (GitHub, None)
    ensures remotes.Ok? && Contains(Lower(remotes.value), "github.com") ==> r == (GitHub, None)
    ensures r.1.Some? ==> r.0 == GitLab && r.1.value != DefaultHost
    ensures r.1.Some? ==> exists line :: line in Split(remotes.value, "\n") && r.1.value == hostOf(line)
    ensures r.0 == GitLab ==>
      var first := FirstGitlabLine(Split(remotes.value, "\n"));
      && remotes.Ok? && first.Some?
      && r.1 == (if hostOf(first.value) != DefaultHost then Some(hostOf(first.value)) else None)
  {
    match remotes
    case Err(_) => (GitHub, None)
    case Ok(out) =>
      if Contains(Lower(out), "github.com") then (GitHub, None)
      else if Contains(Lower(out), "gitlab") then
        match FirstGitlabLine(Split(out, "\n"))
        case None => (GitHub, None)
        case Some(line) =>
          var host := hostOf(line);
          if host != DefaultHost then (GitLab, Some(host)) else (GitLab, None)
      else (GitHub, None)
  }

  /** A "gitlab" that occurs in the lowered output occurs in a line of it:
      the loop over the lines always finds one. */
  lemma {:induction false} GitlabLineExists(out: string)
    requires Contains(Lower(out), "gitlab")
    ensures FirstGitlabLine(Split(out, "\n")).Some?
    decreases |out|
  {
    var i := IndexOf(out, "\n");
    if i >= 0 {
      var line := out[..i];
      var rest := out[i + 1..];
      assert out[i..i + 1] == "\n";
      Reassemble(out, i, 1);
      SplitFound(out, "\n");
      LowerAppend(line + "\n", rest);
      LowerAppend(line, "\n");
      assert Lower("\n") == "\n";
      ContainsAcross(Lower(line), '\n', Lower(rest), "gitlab");
      if !Contains(Lower(line), "gitlab") {
        GitlabLineExists(rest);
        assert ([line] + Split(rest, "\n"))[1..] == Split(rest, "\n");
      }
    } else {
      assert Split(out, "\n") == [out];
    }
  }

  /** GitLab is detected exactly when git ran, the lowered remotes name
      "gitlab" and do not name "github.com". */
  lemma DetectsGitLab(remotes: Result<string, string>, hostOf: string -> string)
    ensures Detect(remotes, hostOf).0 == GitLab <==>
      remotes.Ok? && !Contains(Lower(remotes.value), "github.com") && Contains(Lower(remotes.value), "gitlab")
  {
    if remotes.Ok? && !Contains(Lower(remotes.value), "github.com") && Contains(Lower(remotes.value), "gitlab") {
      GitlabLineExists(remotes.value);
    }
  }

  /** `_detect_platform` as written. */
  function DetectAsWritten(remotes: Result<string, string>): (r: (Platform, Option<string>))
    ensures r.0 == DetectPlatform(remotes).0
    ensures r.1.Some? ==> r.0 == GitLab && r.1.value != DefaultHost
  {
    Detect(remotes, HostAsWritten)
  }

  /** The detection as written and the corrected one differ only where the
      host read as written holds a "/". */
  lemma AsWrittenDiffersOnlyOnSlash(remotes: Result<string, string>)
    ensures DetectAsWritten(remotes) != DetectPlatform(remotes) ==>
      DetectAsWritten(remotes).1.Some? && '/' in DetectAsWritten(remotes).1.value
  {
    DetectByFirstLine(remotes, HostAsWritten);
    DetectByFirstLine(remotes, HostCorrected);
    var g := GitlabRemote(remotes);
    if g.Some? {
      if '/' !in HostAsWritten(g.value) {
        CorrectionAgrees(g.value);
      } else {
        DefaultHostHasNoSlash();
      }
    }
  }

  /** "gitlab.com" holds no "/". */
  lemma DefaultHostHasNoSlash()
    ensures '/' !in DefaultHost
  {
  }

  /** The first remote line mentioning "gitlab", when the remotes name GitLab
      and not GitHub. */
  function GitlabRemote(remotes: Result<string, string>): Option<string> {
    if remotes.Ok? && !Contains(Lower(remotes.value), "github.com") && Contains(Lower(remotes.value), "gitlab")
    then FirstGitlabLine(Split(remotes.value, "\n"))
    else None
  }

  /** The detection is decided by that line and the host read from it. */
  lemma DetectByFirstLine(remotes: Result<string, string>, hostOf: string -> string)
    ensures GitlabRemote(remotes).None? ==> Detect(remotes, hostOf) == (GitHub, None)
    ensures GitlabRemote(remotes).Some? ==>
      var host := hostOf(GitlabRemote(remotes).value);
      Detect(remotes, hostOf) == (GitLab, if host != DefaultHost then Some(host) else None)
  {
  }





  /** `_detect_platform` with the host cut at the first "/". */
  function DetectPlatform(remotes: Result<string, string>): (r: (Platform, Option<string>))
    ensures r.1.Some? ==> '/' !in r.1.value && r.1.value != DefaultHost
  {
    Detect(remotes, HostCorrected)
  }

  /** Where the host read as written has no "/", the correction changes
      nothing: SSH remotes and plain HTTPS remotes are read as before. */
  lemma CorrectionAgrees(line: string)
    requires '/' !in HostAsWritten(line)
    ensures HostCorrected(line) == HostAsWritten(line)
  {
    SplitNoChar(HostAsWritten(line), '/');
  }

  /** An SSH remote `git@host:group/repo.git` yields `host`. */
  lemma SshRemoteHost(pre: string, host: string, path: string)
    requires '@' !in pre && '@' !in host && ':' !in host && '@' !in path && '/' !in host
    ensures HostAsWritten(pre + "@" + host + ":" + path) == host
    ensures HostCorrected(pre + "@" + host + ":" + path) == host
  {
    var line := pre + "@" + host + ":" + path;
    assert line == pre + ['@'] + (host + ":" + path);
    assert '@' in line;
    ContainsChar(line, '@');
    SplitAtChar(pre, '@', host + ":" + path);
    SplitNoChar(host + ":" + path, '@');
    assert host + ":" + path == host + [':'] + path;
    SplitAtChar(host, ':', path);
    CorrectionAgrees(line);
  }

  /** An HTTPS remote with credentials, `https://user@host/path`, read as
      written, puts the path into the host. */
  lemma CredentialsHostAsWritten(pre: string, host: string, path: string)
    requires '@' !in pre && '@' !in host && '@' !in path
    requires ':' !in host && ':' !in path && '/' !in host
    ensures HostAsWritten(pre + "@" + host + "/" + path) == host + "/" + path
    ensures HostCorrected(pre + "@" + host + "/" + path) == host
  {
    var line := pre + "@" + host + "/" + path;
    var tail := host + "/" + path;
    assert line == pre + ['@'] + tail;
    ContainsChar(line, '@');
    SplitAtChar(pre, '@', tail);
    SplitNoChar(tail, '@');
    SplitNoChar(tail, ':');
    assert tail == host + ['/'] + path;
    SplitAtChar(host, '/', path);
  }

  /** A slash-free text followed by nothing or by a "/" is the first piece
      of its split on "/". */
  lemma HeadBeforeSlash(host: string, rest: string)
    requires '/' !in host && (rest == [] || rest[0] == '/')
    ensures Split(host + rest, "/")[0] == host
  {
    if rest == [] {
      assert host + rest == host;
      SplitNoChar(host, '/');
    } else {
      assert host + rest == host + "/" + rest[1..];
      SplitAtChar(host, '/', rest[1..]);
    }
  }

  /** The text after "//" of an HTTPS remote, cut at the next "//" and
      then at the first "/", is the host. */
  lemma HttpsHostPiece(host: string, path: string)
    requires '/' !in host
    ensures Split(Split(host + "/" + path, "//")[0], "/")[0] == host
  {
    var t := host + "/" + path;
    var i := IndexOf(t, "//");
    if i < 0 {
      assert Split(t, "//")[0] == host + ("/" + path);
      HeadBeforeSlash(host, "/" + path);
    } else {
      SplitFound(t, "//");
      assert t[i..i + 2] == "//";
      assert t[i] == t[i..i + 2][0];
      assert forall j :: 0 <= j < |host| ==> t[j] == host[j];
      assert i >= |host|;
      assert t[..i] == host + t[|host|..i];
      HeadBeforeSlash(host, t[|host|..i]);
    }
  }

  /** An HTTPS remote without credentials, `https://host/path`, yields
      `host`, read as written and corrected alike. */
  lemma HttpsRemoteHost(pre: string, host: string, path: string)
    requires '@' !in pre && '@' !in host && '@' !in path
    requires '/' !in pre && '/' !in host
    ensures HostAsWritten(pre + "//" + host + "/" + path) == host
    ensures HostCorrected(pre + "//" + host + "/" + path) == host
  {
    var line := pre + "//" + host + "/" + path;
    var t := host + "/" + path;
    assert line == pre + "//" + t;
    ContainsChar(line, '@');
    SplitAtLead(pre, "//", t);
    assert Split(line, "//")[1] == Split(t, "//")[0];
    HttpsHostPiece(host, path);
    CorrectionAgrees(line);
  }

  /** A single HTTPS remote line without credentials that names GitLab is
      detected at its host, as written and corrected alike. */
  lemma HttpsRemoteDetected(pre: string, host: string, path: string)
    requires '@' !in pre && '@' !in host && '@' !in path
    requires '/' !in pre && '/' !in host && host != DefaultHost
    requires '\n' !in pre + "//" + host + "/" + path
    requires Contains(Lower(pre + "//" + host + "/" + path), "gitlab")
    requires !Contains(Lower(pre + "//" + host + "/" + path), "github.com")
    ensures DetectAsWritten(Ok(pre + "//" + host + "/" + path)) == (GitLab, Some(host))
    ensures DetectPlatform(Ok(pre + "//" + host + "/" + path)) == (GitLab, Some(host))
  {
    var line := pre + "//" + host + "/" + path;
    HttpsRemoteHost(pre, host, path);
    OneGitlabLine(line, HostAsWritten);
    OneGitlabLine(line, HostCorrected);
  }

  /** Remotes of one line that names "gitlab" but not "github.com" are
      read by that line's host. */
  lemma OneGitlabLine(line: string, hostOf: string -> string)
    requires '\n' !in line
    requires Contains(Lower(line), "gitlab") && !Contains(Lower(line), "github.com")
    ensures Detect(Ok(line), hostOf) ==
      if hostOf(line) != DefaultHost then (GitLab, Some(hostOf(line))) else (GitLab, None)
  {
    SplitNoChar(line, '\n');
    assert FirstGitlabLine([line]) == Some(line);
  }

  /** A single remote line `pre@host/path` that names GitLab: as written,
      the host handed to `glab` is `host/path`; corrected, it is `host`. */
  lemma CredentialsRemoteDetected(pre: string, host: string, path: string)
    requires '@' !in pre && '@' !in host && '@' !in path
    requires ':' !in host && ':' !in path && '/' !in host && host != DefaultHost
    requires '\n' !in pre + "@" + host + "/" + path
    requires Contains(Lower(pre + "@" + host + "/" + path), "gitlab")
    requires !Contains(Lower(pre + "@" + host + "/" + path), "github.com")
    ensures DetectAsWritten(Ok(pre + "@" + host + "/" + path)) == (GitLab, Some(host + "/" + path))
    ensures DetectPlatform(Ok(pre + "@" + host + "/" + path)) == (GitLab, Some(host))
  {
    var line := pre + "@" + host + "/" + path;
    CredentialsHostAsWritten(pre, host, path);
    assert (host + "/" + path)[|host|] == '/';
    assert '/' !in DefaultHost;
    OneGitlabLine(line, HostAsWritten);
    OneGitlabLine(line, HostCorrected);
  }

  /** The platform an explicit `platform` argument selects: "github" is
      GitHub, every other value takes the GitLab branch. */
  function PlatformOf(platform: string): (r: Platform)
    ensures r == GitHub <==> platform == "github"
  {
    if platform == "github" then GitHub else GitLab
  }

  /** The platform and GitLab host a tool works with. With "auto" the
      remotes decide the platform, and a detected host is used only when the
      caller gave no `gitlab_host`. */
  function Resolve(platform: string, gitlabHost: string, remotes: Result<string, string>): (r: (Platform, string))
    ensures platform != "auto" ==> r == (PlatformOf(platform), gitlabHost)
    ensures gitlabHost != "" ==> r.1 == gitlabHost
    ensures platform == "auto" ==> r.0 == DetectPlatform(remotes).0
    ensures platform == "auto" && gitlabHost == "" ==>
      r.1 == (if DetectPlatform(remotes).1.Some? then DetectPlatform(remotes).1.value else "")
  {
    if platform == "auto" then
      var (p, detected) := DetectPlatform(remotes);
      (p, if detected.Some? && detected.value != "" && gitlabHost == "" then detected.value else gitlabHost)
    else (PlatformOf(platform), gitlabHost)
  }

  /** The `GITLAB_HOST` the CLI runs with: set only on GitLab, and only to
      a non-empty host. */
  function GitlabHostEnv(p: Platform, host: string): (r: Option<string>)
    ensures r.Some? <==> p == GitLab && host != ""
    ensures r.Some? ==> r.value == host
  {
    if p == GitLab && host != "" then Some(host) else None
  }

  /** The `--state` flags of a listing. */
  function StateArgs(p: Platform, state: string): (r: seq<string>)
    ensures r == [] <==> state == "all"
    ensures p.GitLab? && state == "open" ==> r == ["--state", "opened"]
    ensures !(p.GitLab? && state == "open") && state != "all" ==> r == ["--state", state]
  {
    if p == GitHub then
      if state != "all" then ["--state", state] else []
    else if state == "open" then ["--state", "opened"]
    else if state != "all" then ["--state", state]
    else []
  }

  /** The state flags tell states apart, except that GitLab reads "open"
      and "opened" alike. */
  lemma StateArgsDistinguish(p: Platform, s1: string, s2: string)
    requires s1 != s2
    ensures StateArgs(p, s1) == StateArgs(p, s2) <==>
      p == GitLab && ((s1 == "open" && s2 == "opened") || (s1 == "opened" && s2 == "open"))
  {
    if StateArgs(p, s1) == StateArgs(p, s2) {
      assert StateArgs(p, s1) != [];
      assert StateArgs(p, s1)[1] == StateArgs(p, s2)[1];
    }
  }

  /** `gh pr list` or `glab mr list` with its flags. */
  function ListCommand(p: Platform, state: string, limit: int, author: string): (r: seq<string>)
    ensures |r| == 5 + |StateArgs(p, state)| + (if author != "" then 2 else 0)
    ensures p == GitHub ==> r[..4] == ["gh", "pr", "list", "--limit"]
    ensures p == GitLab ==> r[..4] == ["glab", "mr", "list", "--per-page"]
    ensures r[4] == IntToString(limit)
    ensures r[5..5 + |StateArgs(p, state)|] == StateArgs(p, state)
    ensures author != "" ==> r[|r| - 2..] == ["--author", author]
  {
    (if p == GitHub then ["gh", "pr", "list", "--limit"] else ["glab", "mr", "list", "--per-page"])
    + [IntToString(limit)] + StateArgs(p, state)
    + (if author != "" then ["--author", author] else [])
  }

  /** The merge-method flags: GitHub always names one of squash, rebase
      and merge; GitLab names only squash or rebase. */
  function MethodArgs(p: Platform, mergeMethod: string): (r: seq<string>)
    ensures p == GitHub ==> |r| == 1
    ensures p == GitLab ==> (r == [] <==> mergeMethod != "squash" && mergeMethod != "rebase")
    ensures r == ["--squash"] <==> mergeMethod == "squash"
    ensures r == ["--rebase"] <==> mergeMethod == "rebase"
    ensures "--merge" in r <==> p == GitHub && mergeMethod != "squash" && mergeMethod != "rebase"
  {
    if mergeMethod == "squash" then ["--squash"]
    else if mergeMethod == "rebase" then ["--rebase"]
    else if p == GitHub then ["--merge"]
    else []
  }

  /** The method a merge flag list asks for; no flag means `glab`'s
      default, a merge commit. */
  function MethodOfArgs(args: seq<string>): string {
    if args == ["--squash"] then "squash"
    else if args == ["--rebase"] then "rebase"
    else "merge"
  }

  /** The flags carry the method: each of the three methods of the schema
      is read back from its flags on both platforms. */
  lemma MethodArgsRoundTrip(p: Platform, mergeMethod: string)
    requires mergeMethod == "merge" || mergeMethod == "squash" || mergeMethod == "rebase"
    ensures MethodOfArgs(MethodArgs(p, mergeMethod)) == mergeMethod
  {
  }

  /** `gh pr merge` or `glab mr merge` with its flags. */
  function MergeCommand(p: Platform, number: int, mergeMethod: string, deleteBranch: bool): (r: seq<string>)
    ensures |r| == (if p == GitHub then 4 else 5) + |MethodArgs(p, mergeMethod)| + (if deleteBranch then 1 else 0)
    ensures p == GitHub ==> r[..4] == ["gh", "pr", "merge", IntToString(number)]
    ensures p == GitLab ==> r[..5] == ["glab", "mr", "merge", IntToString(number), "--yes"]
    ensures var k := if p == GitHub then 4 else 5;
      r[k..k + |MethodArgs(p, mergeMethod)|] == MethodArgs(p, mergeMethod)
    ensures deleteBranch ==> r[|r| - 1] == (if p == GitHub then "--delete-branch" else "--remove-source-branch")
  {
    var head := if p == GitHub then ["gh", "pr", "merge", IntToString(number)]
                else ["glab", "mr", "merge", IntToString(number), "--yes"];
    var delete := if !deleteBranch then []
                  else if p == GitHub then ["--delete-branch"] else ["--remove-source-branch"];
    head + MethodArgs(p, mergeMethod) + delete
  }
}
