/** The `git_status` tool of server/tools/git_status.py: it asks git for the
    current branch, the short status and the ahead/behind counts against the
    upstream, and formats them as one text. Each git invocation is an input:
    a function from the working directory and the argument vector to what
    the process returned, or to the message of the exception it raised. */
module GitStatus {
  import opened Wrappers
  import opened Strings

  /** What `subprocess.run(..., capture_output=True, text=True)` returned. */
  datatype Run = Run(returncode: int, stdout: string)

  /** Running a git command in a directory: its result, or `Err(message)`
      when starting it raised. */
  type Git = (string, seq<string>) -> Result<Run, string>

  const Legend: string :=
    "\n\nLegend:\n  M  = Modified\n  A  = Added\n  D  = Deleted\n  R  = Renamed\n  ?? = Untracked\n"

  const Clean: string := "✓ Working tree clean"

  /** The short-status command; `--untracked-files=no` is appended exactly
      when untracked files are not wanted. */
  function StatusCommand(showUntracked: bool): (r: seq<string>)
    ensures |r| >= 3 && r[..3] == ["git", "status", "--short"]
    ensures "--untracked-files=no" in r <==> !showUntracked
    ensures |r| == 3 <==> showUntracked
  {
    ["git", "status", "--short"] + if showUntracked then [] else ["--untracked-files=no"]
  }

  const TrackingCommand: seq<string> := ["git", "rev-list", "--left-right", "--count", "HEAD...@{u}"]

  /** The suffix for two counts `ahead`, `behind` as rev-list printed them. */
  function CountsSuffix(ahead: string, behind: string): (r: string)
    ensures r == "" <==> ahead == "0" && behind == "0"
    ensures ahead != "0" && behind != "0" ==> r == " [ahead " + ahead + ", behind " + behind + "]"
    ensures ahead != "0" && behind == "0" ==> r == " [ahead " + ahead + "]"
    ensures ahead == "0" && behind != "0" ==> r == " [behind " + behind + "]"
  {
    if ahead != "0" || behind != "0" then
      if ahead != "0" && behind != "0" then " [ahead " + ahead + ", behind " + behind + "]"
      else if ahead != "0" then " [ahead " + ahead + "]"
      else " [behind " + behind + "]"
    else ""
  }

  /** The ahead/behind part of the branch line: only a successful rev-list
      whose output splits into exactly two tokens contributes. */
  function AheadBehind(tracking: Run): (r: string)
    ensures r != "" ==> tracking.returncode == 0 && |Words(Strip(tracking.stdout))| == 2
    ensures tracking.returncode != 0 || |Words(Strip(tracking.stdout))| != 2 ==> r == ""
    ensures tracking.returncode == 0 && |Words(Strip(tracking.stdout))| == 2 ==>
      r == CountsSuffix(Words(Strip(tracking.stdout))[0], Words(Strip(tracking.stdout))[1])
  {
    if tracking.returncode == 0 then
      var counts := Words(Strip(tracking.stdout));
      if |counts| == 2 then CountsSuffix(counts[0], counts[1]) else ""
    else ""
  }

  /** Reading the counts back from a suffix: the inverse of `CountsSuffix`. */
  function ParseSuffix(s: string): Option<(string, string)> {
    if s == "" then Some(("0", "0"))
    else if StartsWith(s, " [ahead ") && EndsWith(s, "]") && |s| >= 9 then
      var inner := s[8..|s| - 1];
      var i := IndexOf(inner, ", behind ");
      if i < 0 then Some((inner, "0")) else Some((inner[..i], inner[i + 9..]))
    else if StartsWith(s, " [behind ") && EndsWith(s, "]") && |s| >= 10 then
      Some(("0", s[9..|s| - 1]))
    else None
  }

  /** The index `find` reports is one the pattern starts at. */
  lemma FoundStarts(s: string, sub: string)
    ensures IndexOf(s, sub) >= 0 ==> StartsWith(s[IndexOf(s, sub)..], sub)
  {
    var i := IndexOf(s, sub);
    if i >= 0 {
      assert s[i..][..|sub|] == s[i..i + |sub|];
    }
  }

  /** In `a + ", behind " + b` the separator is first found right after `a`
      when `a` has no comma. */
  lemma SeparatorAfterFirst(a: string, b: string)
    requires ',' !in a
    ensures IndexOf(a + ", behind " + b, ", behind ") == |a|
  {
    var s := a + ", behind " + b;
    assert s[|a|..|a| + 9] == ", behind ";
    ContainsAt(s, ", behind ", |a|);
    assert StartsWith(s[|a|..], ", behind ");
    forall j | 0 <= j < |a|
      ensures !StartsWith(s[j..], ", behind ")
    {
      assert s[j] == a[j];
    }
    FoundStarts(s, ", behind ");
  }

  /** Without a comma there is no ", behind " to find. */
  lemma NoSeparator(a: string)
    requires ',' !in a
    ensures !Contains(a, ", behind ")
  {
    forall j | 0 <= j < |a|
      ensures !StartsWith(a[j..], ", behind ")
    {
      assert a[j] in a;
    }
    FoundStarts(a, ", behind ");
  }

  /** The suffix determines the counts: tokens without a comma or a closing
      bracket (rev-list prints digits) are recovered exactly, a missing side
      being read as "0". */
  lemma SuffixRoundTrip(ahead: string, behind: string)
    requires ahead != [] && behind != []
    requires ',' !in ahead
    ensures ParseSuffix(CountsSuffix(ahead, behind)) == Some((ahead, behind))
  {
    var r := CountsSuffix(ahead, behind);
    if ahead != "0" && behind != "0" {
      var inner := ahead + ", behind " + behind;
      Bracketed(" [ahead ", inner);
      assert r == " [ahead " + inner + "]";
      SeparatorAfterFirst(ahead, behind);
      assert inner[..|ahead|] == ahead;
      assert inner[|ahead| + 9..] == behind;
    } else if ahead != "0" {
      Bracketed(" [ahead ", ahead);
      NoSeparator(ahead);
    } else if behind != "0" {
      Bracketed(" [behind ", behind);
      assert !StartsWith(r, " [ahead ") by { assert r[2] == 'b'; }
    }
  }

  /** A text between a prefix and a closing bracket reads back from the
      whole. */
  lemma Bracketed(prefix: string, x: string)
    ensures var s := prefix + x + "]";
      && |s| == |prefix| + |x| + 1
      && StartsWith(s, prefix) && EndsWith(s, "]") && s[|prefix|..|s| - 1] == x
  {
    var s := prefix + x + "]";
    assert s[..|prefix|] == prefix;
    assert s[|s| - 1..] == "]";
    assert s[|prefix|..|s| - 1] == x;
  }

  /** The report after the branch line. */
  function Body(status: string): (r: string)
    ensures EndsWith(r, Clean) <==> IsBlank(status)
    ensures IsBlank(status) ==> r == Clean
    ensures !IsBlank(status) ==> StartsWith(r, "Changes:\n" + status)
    ensures !IsBlank(status) ==> EndsWith(r, Legend) && |r| == |"Changes:\n" + status| + |Legend|
  {
    if !IsBlank(status) then
      var r := "Changes:\n" + status + Legend;
      assert r[|r| - 1] == '\n';
      assert r[|r| - |Legend|..] == Legend;
      r
    else Clean
  }

  /** Text put in front keeps a suffix that the tail ends with, and one of
      the tail's length or shorter is decided by the tail alone. */
  lemma EndsWithAfter(head: string, tail: string, suffix: string)
    requires |suffix| <= |tail|
    ensures EndsWith(head + tail, suffix) <==> EndsWith(tail, suffix)
  {
    assert (head + tail)[|head + tail| - |suffix|..] == tail[|tail| - |suffix|..];
  }

  /** The whole report. */
  function Report(branch: string, aheadBehind: string, status: string): (r: string)
    ensures StartsWith(r, "On branch: " + branch + aheadBehind + "\n\n")
    ensures EndsWith(r, Clean) <==> IsBlank(status)
    ensures IsBlank(status) ==> r == "On branch: " + branch + aheadBehind + "\n\n" + Clean
    ensures !IsBlank(status) ==>
      r == "On branch: " + branch + aheadBehind + "\n\n" + "Changes:\n" + status + Legend
  {
    var head := "On branch: " + branch + aheadBehind + "\n\n";
    EndsWithAfter(head, Body(status), Clean);
    head + Body(status)
  }

  /** `git_status(arguments)`: the single text the tool returns. */
  function GitStatusTool(path: Option<string>, showUntracked: Option<bool>, git: Git): (r: string)
    ensures git(path.GetOr("."), ["git", "rev-parse", "--git-dir"]).Ok? &&
            git(path.GetOr("."), ["git", "rev-parse", "--git-dir"]).value.returncode != 0 ==>
            r == "Error: Not a git repository: " + path.GetOr(".")
    ensures git(path.GetOr("."), ["git", "rev-parse", "--git-dir"]).Err? ==>
            r == "Error getting git status: " + git(path.GetOr("."), ["git", "rev-parse", "--git-dir"]).error
  {
    var dir := path.GetOr(".");
    match git(dir, ["git", "rev-parse", "--git-dir"])
    case Err(e) => "Error getting git status: " + e
    case Ok(check) =>
      if check.returncode != 0 then "Error: Not a git repository: " + dir
      else
        match git(dir, ["git", "branch", "--show-current"])
        case Err(e) => "Error getting git status: " + e
        case Ok(branch) =>
          match git(dir, StatusCommand(showUntracked.GetOr(true)))
          case Err(e) => "Error getting git status: " + e
          case Ok(status) =>
            match git(dir, TrackingCommand)
            case Err(e) => "Error getting git status: " + e
            case Ok(tracking) => Report(Strip(branch.stdout), AheadBehind(tracking), status.stdout)
  }

  /** In a repository, the first of the branch, status and tracking runs
      that raises decides the reply: its message after "Error getting git
      status: ", the later runs making no difference. */
  lemma LaterRaiseReported(path: Option<string>, showUntracked: Option<bool>, git: Git)
    requires git(path.GetOr("."), ["git", "rev-parse", "--git-dir"]).Ok?
    requires git(path.GetOr("."), ["git", "rev-parse", "--git-dir"]).value.returncode == 0
    ensures git(path.GetOr("."), ["git", "branch", "--show-current"]).Err? ==>
      GitStatusTool(path, showUntracked, git)
      == "Error getting git status: " + git(path.GetOr("."), ["git", "branch", "--show-current"]).error
    ensures (git(path.GetOr("."), ["git", "branch", "--show-current"]).Ok? &&
             git(path.GetOr("."), StatusCommand(showUntracked.GetOr(true))).Err?) ==>
      GitStatusTool(path, showUntracked, git)
      == "Error getting git status: " + git(path.GetOr("."), StatusCommand(showUntracked.GetOr(true))).error
    ensures (git(path.GetOr("."), ["git", "branch", "--show-current"]).Ok? &&
             git(path.GetOr("."), StatusCommand(showUntracked.GetOr(true))).Ok? &&
             git(path.GetOr("."), TrackingCommand).Err?) ==>
      GitStatusTool(path, showUntracked, git)
      == "Error getting git status: " + git(path.GetOr("."), TrackingCommand).error
  {
  }

  /** In a repository where every command runs, the reply is the report of
      the three outputs: the branch line with its suffix, then either the
      changes with the legend or the clean-tree line;
      untracked files are asked for unless switched off. */
  lemma ToolReportsStatus(path: Option<string>, showUntracked: Option<bool>, git: Git,
                          branch: Run, status: Run, tracking: Run)
    requires git(path.GetOr("."), ["git", "rev-parse", "--git-dir"]).Ok?
    requires git(path.GetOr("."), ["git", "rev-parse", "--git-dir"]).value.returncode == 0
    requires git(path.GetOr("."), ["git", "branch", "--show-current"]) == Ok(branch)
    requires git(path.GetOr("."), StatusCommand(showUntracked.GetOr(true))) == Ok(status)
    requires git(path.GetOr("."), TrackingCommand) == Ok(tracking)
    ensures StartsWith(GitStatusTool(path, showUntracked, git),
                       "On branch: " + Strip(branch.stdout) + AheadBehind(tracking) + "\n\n")
    ensures EndsWith(GitStatusTool(path, showUntracked, git), Clean) <==> IsBlank(status.stdout)
    ensures GitStatusTool(path, showUntracked, git) == Report(Strip(branch.stdout), AheadBehind(tracking), status.stdout)
  {
  }
}
