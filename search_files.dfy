/** The file search of server/tools/search_files.py: binary detection on
    the first 8 KiB, .gitignore parsing and matching, extension matching as
    `os.path.splitext` splits, per-line content search, and the walk with its
    depth rule and result cap. The directory tree, file sizes, bytes and
    decoded lines are inputs; `fnmatch` is an abstract predicate; paths use
    "/" as separator. */
module SearchFiles {
  import opened Wrappers
  import opened Strings

  newtype byte = x: int | 0 <= x < 256

  /** `f.read(8192)` */
  const ChunkSize: nat := 8192

  predicate IsContinuation(b: byte) { 0x80 <= b <= 0xBF }

  /** The length of the well-formed UTF-8 sequence at the start of `b`, or 0
      when it is ill-formed (Table 3-7 of the Unicode Standard, which
      Python's strict decoder follows). */
  function CharLength(b: seq<byte>): (n: nat)
    requires b != []
    ensures n <= |b| && n <= 4
  {
    var b0 := b[0];
    if b0 <= 0x7F then 1
    else if 0xC2 <= b0 <= 0xDF then
      (if |b| >= 2 && IsContinuation(b[1]) then 2 else 0)
    else if b0 == 0xE0 then
      (if |b| >= 3 && 0xA0 <= b[1] <= 0xBF && IsContinuation(b[2]) then 3 else 0)
    else if (0xE1 <= b0 <= 0xEC) || b0 == 0xEE || b0 == 0xEF then
      (if |b| >= 3 && IsContinuation(b[1]) && IsContinuation(b[2]) then 3 else 0)
    else if b0 == 0xED then
      (if |b| >= 3 && 0x80 <= b[1] <= 0x9F && IsContinuation(b[2]) then 3 else 0)
    else if b0 == 0xF0 then
      (if |b| >= 4 && 0x90 <= b[1] <= 0xBF && IsContinuation(b[2]) && IsContinuation(b[3]) then 4 else 0)
    else if 0xF1 <= b0 <= 0xF3 then
      (if |b| >= 4 && IsContinuation(b[1]) && IsContinuation(b[2]) && IsContinuation(b[3]) then 4 else 0)
    else if b0 == 0xF4 then
      (if |b| >= 4 && 0x80 <= b[1] <= 0x8F && IsContinuation(b[2]) && IsContinuation(b[3]) then 4 else 0)
    else 0
  }

  /** `bytes.decode('utf-8')` succeeds. */
  predicate ValidUtf8(b: seq<byte>)
    decreases |b|
  {
    b == [] || (CharLength(b) > 0 && ValidUtf8(b[CharLength(b)..]))
  }

  /** `is_binary_file`: the file's bytes, or None when opening or reading
      raises. */
  predicate IsBinaryFile(file: Option<seq<byte>>): (r: bool)
    ensures file.None? ==> r
    ensures file.Some? && |file.value| <= ChunkSize ==> (r <==> 0 in file.value || !ValidUtf8(file.value))
  {
    match file
    case None => true
    case Some(bytes) =>
      var chunk := SliceTo(bytes, ChunkSize);
      0 in chunk || !ValidUtf8(chunk)
  }

  predicate AsciiText(s: seq<byte>) {
    forall i :: 0 <= i < |s| ==> 1 <= s[i] <= 0x7F
  }

  /** An ASCII prefix does not change whether the rest decodes. */
  lemma {:induction false} AsciiPrefixDecodes(s: seq<byte>, t: seq<byte>)
    requires AsciiText(s)
    ensures ValidUtf8(s + t) == ValidUtf8(t)
    decreases |s|
  {
    if s != [] {
      assert (s + t)[0] == s[0];
      assert (s + t)[1..] == s[1..] + t;
      AsciiPrefixDecodes(s[1..], t);
    } else {
      assert s + t == t;
    }
  }

  /** A file of ASCII text without NUL bytes is not binary. */
  lemma AsciiIsText(bytes: seq<byte>)
    requires AsciiText(bytes)
    ensures !IsBinaryFile(Some(bytes))
  {
    var chunk := SliceTo(bytes, ChunkSize);
    AsciiPrefixDecodes(chunk, []);
    assert chunk + [] == chunk;
  }

  /** The first 8 KiB are judged on their own: a UTF-8 text whose 8192nd
      byte starts a two-byte character is called binary, because the cut
      chunk does not decode. */
  lemma CutCharacterMakesBinary(prefix: seq<byte>)
    requires |prefix| == ChunkSize - 1 && AsciiText(prefix)
    ensures ValidUtf8(prefix + [0xC3, 0xA9])
    ensures IsBinaryFile(Some(prefix + [0xC3, 0xA9]))
  {
    var file := prefix + [0xC3, 0xA9];
    AsciiPrefixDecodes(prefix, [0xC3, 0xA9]);
    assert [0xC3, 0xA9][2..] == [];
    assert ValidUtf8([0xC3, 0xA9]);
    var chunk := SliceTo(file, ChunkSize);
    assert chunk == prefix + [0xC3];
    AsciiPrefixDecodes(prefix, [0xC3]);
  }

  /** A NUL byte in the first 8 KiB makes a file binary. */
  lemma NulMakesBinary(bytes: seq<byte>, i: nat)
    requires i < |bytes| && i < ChunkSize && bytes[i] == 0
    ensures IsBinaryFile(Some(bytes))
  {
    assert SliceTo(bytes, ChunkSize)[i] == 0;
  }

  /** The .gitignore of the search root. */
  datatype GitignoreFile = Missing | Unreadable | Lines(lines: seq<string>)

  predicate KeepsLine(line: string) {
    Strip(line) != "" && !StartsWith(Strip(line), "#")
  }

  /** What one line contributes: its stripped form, when kept. */
  function KeptFrom(line: string): seq<string> {
    if KeepsLine(line) then [Strip(line)] else []
  }

  /** The stripped lines that are neither empty nor comments, in order. */
  function KeptPatterns(lines: seq<string>): seq<string> {
    if lines == [] then [] else KeptFrom(lines[0]) + KeptPatterns(lines[1..])
  }

  lemma {:induction false} KeptPatternsAppend(a: seq<string>, b: seq<string>)
    ensures KeptPatterns(a + b) == KeptPatterns(a) + KeptPatterns(b)
  {
    if a == [] {
      assert a + b == b;
    } else {
      assert (a + b)[0] == a[0];
      assert (a + b)[1..] == a[1..] + b;
      KeptPatternsAppend(a[1..], b);
      var x, y, z := KeptFrom(a[0]), KeptPatterns(a[1..]), KeptPatterns(b);
      assert x + (y + z) == (x + y) + z;
    }
  }

  /** The patterns of one more line are those the line adds at the end. */
  lemma KeptPatternsSnoc(lines: seq<string>, i: nat)
    requires i < |lines|
    ensures KeptPatterns(lines[..i + 1]) == KeptPatterns(lines[..i]) + KeptFrom(lines[i])
  {
    assert lines[..i + 1] == lines[..i] + [lines[i]];
    KeptPatternsAppend(lines[..i], [lines[i]]);
  }

  /** Every kept pattern is a non-empty, non-comment stripped line, and every
      such line is kept. */
  lemma {:induction false} KeptPatternsCorrect(lines: seq<string>)
    ensures forall p :: p in KeptPatterns(lines) ==>
      p != "" && !StartsWith(p, "#") && exists l :: l in lines && Strip(l) == p
    ensures forall l :: l in lines && KeepsLine(l) ==> Strip(l) in KeptPatterns(lines)
  {
    if lines != [] {
      KeptPatternsCorrect(lines[1..]);
      forall p | p in KeptPatterns(lines)
        ensures p != "" && !StartsWith(p, "#") && exists l :: l in lines && Strip(l) == p
      {
        assert p in KeptFrom(lines[0]) || p in KeptPatterns(lines[1..]);
        if p in KeptFrom(lines[0]) {
          assert lines[0] in lines;
        } else {
          var l :| l in lines[1..] && Strip(l) == p;
          assert l in lines;
        }
      }
    }
  }

  /** `parse_gitignore`: None when the file is missing or cannot be read. */
  method ParseGitignore(file: GitignoreFile) returns (r: Option<seq<string>>)
    ensures !file.Lines? ==> r.None?
    ensures file.Lines? ==> r == Some(KeptPatterns(file.lines))
  {
    if !file.Lines? {
      return None;
    }
    var patterns: seq<string> := [];
    var i := 0;
    while i < |file.lines|
      invariant 0 <= i <= |file.lines|
      invariant patterns == KeptPatterns(file.lines[..i])
    {
      var line := Strip(file.lines[i]);
      KeptPatternsSnoc(file.lines, i);
      if line != "" && !StartsWith(line, "#") {
        patterns := patterns + [line];
      }
      i := i + 1;
    }
    assert file.lines[..i] == file.lines;
    r := Some(patterns);
  }

  /** `fnmatch.fnmatch(name, pattern)` */
  type Glob = (string, string) -> bool

  /** `s.rstrip('/')` */
  function RStripSlashes(s: string): (r: string)
    ensures |r| <= |s| && r == s[..|r|]
    ensures r == [] || r[|r| - 1] != '/'
    ensures forall i :: |r| <= i < |s| ==> s[i] == '/'
  {
    if s != [] && s[|s| - 1] == '/' then RStripSlashes(s[..|s| - 1]) else s
  }

  /** The components that `Path` keeps: empty and "." components drop out. */
  function Components(comps: seq<string>): (r: seq<string>)
    ensures forall c :: c in r ==> c in comps && c != "" && c != "."
  {
    if comps == [] then []
    else (if comps[0] != "" && comps[0] != "." then [comps[0]] else []) + Components(comps[1..])
  }

  /** `Path(path).parts` for a POSIX path: "/" first for an absolute path. */
  function Parts(path: string): seq<string> {
    var comps := Components(Split(path, "/"));
    if StartsWith(path, "/") then ["/"] + comps else comps
  }

  /** `os.path.basename`: the text after the last "/". */
  function Basename(path: string): (r: string)
    ensures '/' !in r
  {
    var pieces := Split(path, "/");
    SplitPiecesLack(path, '/');
    pieces[|pieces| - 1]
  }

  /** Whether one .gitignore pattern matches a path: a pattern ending in "/"
      matches when some component matches it without its slashes; any other
      pattern matches the basename or the whole path. */
  predicate PatternHits(pattern: string, path: string, fnmatch: Glob) {
    if EndsWith(pattern, "/") then AnyPartMatches(Parts(path), RStripSlashes(pattern), fnmatch)
    else fnmatch(Basename(path), pattern) || fnmatch(path, pattern)
  }

  predicate AnyPartMatches(parts: seq<string>, pattern: string, fnmatch: Glob) {
    parts != [] && (fnmatch(parts[0], pattern) || AnyPartMatches(parts[1..], pattern, fnmatch))
  }

  /** `should_ignore`: the patterns are tried in order until one matches. */
  predicate ShouldIgnore(path: string, patterns: seq<string>, fnmatch: Glob): (r: bool)
    ensures patterns == [] ==> !r
    ensures r ==> exists k :: 0 <= k < |patterns| && PatternHits(patterns[k], path, fnmatch)
  {
    patterns != [] && (PatternHits(patterns[0], path, fnmatch) || ShouldIgnore(path, patterns[1..], fnmatch))
  }

  lemma {:induction false} AnyPartMatchesIff(parts: seq<string>, pattern: string, fnmatch: Glob)
    ensures AnyPartMatches(parts, pattern, fnmatch) <==> exists k :: 0 <= k < |parts| && fnmatch(parts[k], pattern)
  {
    if parts != [] {
      AnyPartMatchesIff(parts[1..], pattern, fnmatch);
      if exists k :: 0 <= k < |parts| && fnmatch(parts[k], pattern) {
        var k :| 0 <= k < |parts| && fnmatch(parts[k], pattern);
        if k > 0 {
          assert fnmatch(parts[1..][k - 1], pattern);
        }
      }
    }
  }

  /** A path is ignored exactly when some pattern matches it; no pattern,
      no match. */
  lemma {:induction false} ShouldIgnoreIff(path: string, patterns: seq<string>, fnmatch: Glob)
    ensures ShouldIgnore(path, patterns, fnmatch) <==> exists p :: p in patterns && PatternHits(p, path, fnmatch)
    ensures patterns == [] ==> !ShouldIgnore(path, patterns, fnmatch)
  {
    if patterns != [] {
      ShouldIgnoreIff(path, patterns[1..], fnmatch);
      if exists p :: p in patterns && PatternHits(p, path, fnmatch) {
        var p :| p in patterns && PatternHits(p, path, fnmatch);
        assert p == patterns[0] || p in patterns[1..];
      }
    }
  }

  /** A directory pattern ignores every path with a matching component. */
  lemma DirectoryPatternHitsComponent(path: string, pattern: string, k: nat, fnmatch: Glob)
    requires EndsWith(pattern, "/") && k < |Parts(path)|
    requires fnmatch(Parts(path)[k], RStripSlashes(pattern))
    ensures PatternHits(pattern, path, fnmatch)
  {
    AnyPartMatchesIff(Parts(path), RStripSlashes(pattern), fnmatch);
  }

  /** Position of the last `c` in `s`, or -1. */
  function LastIndexOf(s: string, c: char): (r: int)
    ensures -1 <= r < |s|
    ensures r >= 0 ==> s[r] == c
    ensures forall j :: r < j < |s| ==> s[j] != c
  {
    if s == [] then -1
    else if s[|s| - 1] == c then |s| - 1
    else LastIndexOf(s[..|s| - 1], c)
  }

  /** `os.path.splitext`: the extension is the text from the last "." of the
      final component, unless that component has only dots before it. */
  function SplitExt(p: string): (r: (string, string))
    ensures r.0 + r.1 == p
    ensures r.1 == "" || (r.1[0] == '.' && forall j :: 1 <= j < |r.1| ==> r.1[j] != '.' && r.1[j] != '/')
  {
    var sepIndex := LastIndexOf(p, '/');
    var dotIndex := LastIndexOf(p, '.');
    if dotIndex > sepIndex && exists k :: sepIndex + 1 <= k < dotIndex && p[k] != '.' then
      (p[..dotIndex], p[dotIndex..])
    else (p, "")
  }

  /** A final component with something other than a dot before its last
      dot has the extension from that dot on ("archive.tar.gz" gives ".gz"). */
  lemma SplitExtTakesLastDot(head: string, stem: string, ext: string, k: nat)
    requires '/' !in stem && '/' !in ext && '.' !in ext
    requires k < |stem| && stem[k] != '.'
    ensures SplitExt(head + stem + "." + ext) == (head + stem, "." + ext)
  {
    var p := head + stem + "." + ext;
    var dot := |head| + |stem|;
    assert p[dot] == '.';
    forall j | dot < j < |p|
      ensures p[j] != '.' && p[j] != '/'
    {
      assert p[j] == ext[j - dot - 1];
    }
    forall j | |head| <= j < dot
      ensures p[j] != '/'
    {
      assert p[j] == stem[j - |head|];
    }
    assert p[|head| + k] == stem[k];
    assert p[..dot] == head + stem;
    assert p[dot..] == "." + ext;
  }

  /** A final component whose only dots lead it (".bashrc", "Makefile") has
      no extension. */
  lemma SplitExtLeadingDots(head: string, dots: string, rest: string)
    requires head == "" || head[|head| - 1] == '/'
    requires forall j :: 0 <= j < |dots| ==> dots[j] == '.'
    requires '.' !in rest && '/' !in rest
    ensures SplitExt(head + dots + rest).1 == ""
  {
    var p := head + dots + rest;
    var start := |head| + |dots|;
    if head != "" {
      assert p[|head| - 1] == '/';
    }
    forall j | start <= j < |p|
      ensures p[j] != '.' && p[j] != '/'
    {
      assert p[j] == rest[j - start];
    }
    forall j | |head| <= j < start
      ensures p[j] == '.'
    {
      assert p[j] == dots[j - |head|];
    }
  }

  /** `matches_extension` */
  predicate MatchesExtension(filepath: string, extensions: seq<string>): (r: bool)
    ensures extensions == [] ==> !r
    ensures r ==> "*" in extensions || SplitExt(filepath).1 in extensions
  {
    "*" in extensions || ["*"] == extensions || SplitExt(filepath).1 in extensions
  }

  /** The `["*"] == extensions` test adds nothing to `"*" in extensions`;
      without "*" the extension must be listed exactly. */
  lemma MatchesExtensionRule(filepath: string, extensions: seq<string>)
    ensures "*" in extensions ==> MatchesExtension(filepath, extensions)
    ensures "*" !in extensions ==> (MatchesExtension(filepath, extensions) <==> SplitExt(filepath).1 in extensions)
  {
  }

  /** One line containing the search text. */
  datatype LineMatch = LineMatch(lineNumber: nat, lineContent: string, column: int)

  /** `line.rstrip('\n')` */
  function RStripNewlines(s: string): (r: string)
    ensures |r| <= |s| && r == s[..|r|]
    ensures r == [] || r[|r| - 1] != '\n'
  {
    if s != [] && s[|s| - 1] == '\n' then RStripNewlines(s[..|s| - 1]) else s
  }

  predicate LineHas(line: string, text: string, caseSensitive: bool) {
    if caseSensitive then Contains(line, text) else Contains(Lower(line), Lower(text))
  }

  function Column(line: string, text: string, caseSensitive: bool): int {
    if caseSensitive then IndexOf(line, text) else IndexOf(Lower(line), Lower(text))
  }

  /** The match line `number` contributes, if it holds the text. */
  function LineMatches(line: string, text: string, caseSensitive: bool, number: nat): seq<LineMatch> {
    if LineHas(line, text, caseSensitive)
    then [LineMatch(number, RStripNewlines(line), Column(line, text, caseSensitive))]
    else []
  }

  /** One match per line holding the text, numbered from `first`. */
  function ContentMatches(lines: seq<string>, text: string, caseSensitive: bool, first: nat): (r: seq<LineMatch>)
    ensures |r| <= |lines|
  {
    if lines == [] then []
    else LineMatches(lines[0], text, caseSensitive, first) + ContentMatches(lines[1..], text, caseSensitive, first + 1)
  }

  /** A match names a line holding the text, counted from `first`, with that
      line without its newline and the index of the text's first occurrence
      in it. */
  predicate SoundAt(m: LineMatch, lines: seq<string>, text: string, caseSensitive: bool, first: nat) {
    && first <= m.lineNumber < first + |lines|
    && LineHas(lines[m.lineNumber - first], text, caseSensitive)
    && m.lineContent == RStripNewlines(lines[m.lineNumber - first])
    && m.column == Column(lines[m.lineNumber - first], text, caseSensitive)
    && m.column >= 0
  }

  predicate MatchesSound(ms: seq<LineMatch>, lines: seq<string>, text: string, caseSensitive: bool, first: nat) {
    forall k :: 0 <= k < |ms| ==> SoundAt(ms[k], lines, text, caseSensitive, first)
  }

  /** The matches come in increasing line order. */
  predicate Increasing(ms: seq<LineMatch>) {
    forall k, l :: 0 <= k < l < |ms| ==> ms[k].lineNumber < ms[l].lineNumber
  }

  /** Every line holding the text has its match. */
  predicate MatchesComplete(ms: seq<LineMatch>, lines: seq<string>, text: string, caseSensitive: bool, first: nat) {
    forall n :: 0 <= n < |lines| && LineHas(lines[n], text, caseSensitive) ==>
      exists k :: 0 <= k < |ms| && ms[k].lineNumber == first + n
  }

  lemma {:induction false} ContentMatchesSound(lines: seq<string>, text: string, caseSensitive: bool, first: nat)
    ensures MatchesSound(ContentMatches(lines, text, caseSensitive, first), lines, text, caseSensitive, first)
    decreases |lines|
  {
    if lines != [] {
      ContentMatchesSound(lines[1..], text, caseSensitive, first + 1);
      var head := LineMatches(lines[0], text, caseSensitive, first);
      var rest := ContentMatches(lines[1..], text, caseSensitive, first + 1);
      assert ContentMatches(lines, text, caseSensitive, first) == head + rest;
      SoundAppend(head, rest, lines, text, caseSensitive, first);
    }
  }

  lemma SoundAppend(head: seq<LineMatch>, rest: seq<LineMatch>, lines: seq<string>, text: string, caseSensitive: bool, first: nat)
    requires lines != []
    requires head == LineMatches(lines[0], text, caseSensitive, first)
    requires MatchesSound(rest, lines[1..], text, caseSensitive, first + 1)
    ensures MatchesSound(head + rest, lines, text, caseSensitive, first)
  {
    var ms := head + rest;
    forall k | 0 <= k < |ms|
      ensures SoundAt(ms[k], lines, text, caseSensitive, first)
    {
      if k < |head| {
        assert ms[k] == head[0];
      } else {
        assert ms[k] == rest[k - |head|];
        SoundShift(rest[k - |head|], lines, text, caseSensitive, first);
      }
    }
  }

  lemma SoundShift(m: LineMatch, lines: seq<string>, text: string, caseSensitive: bool, first: nat)
    requires lines != []
    requires SoundAt(m, lines[1..], text, caseSensitive, first + 1)
    ensures SoundAt(m, lines, text, caseSensitive, first)
  {
    assert lines[m.lineNumber - first] == lines[1..][m.lineNumber - (first + 1)];
  }

  lemma {:induction false} ContentMatchesOrdered(lines: seq<string>, text: string, caseSensitive: bool, first: nat)
    ensures Increasing(ContentMatches(lines, text, caseSensitive, first))
    decreases |lines|
  {
    if lines != [] {
      ContentMatchesOrdered(lines[1..], text, caseSensitive, first + 1);
      ContentMatchesSound(lines[1..], text, caseSensitive, first + 1);
      var head := LineMatches(lines[0], text, caseSensitive, first);
      var rest := ContentMatches(lines[1..], text, caseSensitive, first + 1);
      assert ContentMatches(lines, text, caseSensitive, first) == head + rest;
      assert forall k :: 0 <= k < |rest| ==> rest[k].lineNumber > first by {
        forall k | 0 <= k < |rest|
          ensures rest[k].lineNumber > first
        {
          assert SoundAt(rest[k], lines[1..], text, caseSensitive, first + 1);
        }
      }
      OrderedAppend(head, rest, first);
    }
  }

  lemma OrderedAppend(head: seq<LineMatch>, rest: seq<LineMatch>, first: nat)
    requires |head| <= 1 && forall k :: 0 <= k < |head| ==> head[k].lineNumber == first
    requires forall k :: 0 <= k < |rest| ==> rest[k].lineNumber > first
    requires Increasing(rest)
    ensures Increasing(head + rest)
  {
    var ms := head + rest;
    forall k, l | 0 <= k < l < |ms|
      ensures ms[k].lineNumber < ms[l].lineNumber
    {
      assert ms[l] == rest[l - |head|];
      if k >= |head| {
        assert ms[k] == rest[k - |head|];
      }
    }
  }

  lemma {:induction false} ContentMatchesComplete(lines: seq<string>, text: string, caseSensitive: bool, first: nat)
    ensures MatchesComplete(ContentMatches(lines, text, caseSensitive, first), lines, text, caseSensitive, first)
    decreases |lines|
  {
    if lines != [] {
      ContentMatchesComplete(lines[1..], text, caseSensitive, first + 1);
      var head := LineMatches(lines[0], text, caseSensitive, first);
      var rest := ContentMatches(lines[1..], text, caseSensitive, first + 1);
      var ms := ContentMatches(lines, text, caseSensitive, first);
      assert ms == head + rest;
      forall n | 0 <= n < |lines| && LineHas(lines[n], text, caseSensitive)
        ensures exists k :: 0 <= k < |ms| && ms[k].lineNumber == first + n
      {
        if n == 0 {
          assert ms[0].lineNumber == first;
        } else {
          assert LineHas(lines[1..][n - 1], text, caseSensitive);
          var k :| 0 <= k < |rest| && rest[k].lineNumber == first + 1 + (n - 1);
          assert ms[|head| + k] == rest[k];
        }
      }
    }
  }

  lemma ContentMatchesStep(lines: seq<string>, text: string, caseSensitive: bool, i: nat)
    requires i < |lines|
    ensures ContentMatches(lines[i..], text, caseSensitive, i + 1)
         == LineMatches(lines[i], text, caseSensitive, i + 1) + ContentMatches(lines[i + 1..], text, caseSensitive, i + 2)
  {
    assert lines[i..][1..] == lines[i + 1..];
  }

  lemma AppendAssociates(a: seq<LineMatch>, b: seq<LineMatch>, c: seq<LineMatch>)
    ensures (a + b) + c == a + (b + c)
  {
  }

  /** A file as the search sees it: its name, its size (or the text of the
      exception `getsize` raises), its bytes for the binary check (None when
      they cannot be read), and its decoded lines (those read before any read
      error). */
  datatype FileInfo = FileInfo(name: string, size: Result<nat, string>, bytes: Option<seq<byte>>, lines: seq<string>)

  /** The file is searched: its size is known and within the limit, and it is
      not binary. */
  predicate Searchable(file: FileInfo, maxSizeMb: int) {
    file.size.Ok? && file.size.value <= maxSizeMb * 1024 * 1024 && !IsBinaryFile(file.bytes)
  }

  /** `search_content_in_file` */
  method SearchContentInFile(file: FileInfo, text: string, caseSensitive: bool, maxSizeMb: int)
    returns (matches: seq<LineMatch>)
    ensures !Searchable(file, maxSizeMb) ==> matches == []
    ensures Searchable(file, maxSizeMb) ==> matches == ContentMatches(file.lines, text, caseSensitive, 1)
  {
    matches := [];
    if file.size.Err? || file.size.value > maxSizeMb * 1024 * 1024 {
      return;
    }
    if IsBinaryFile(file.bytes) {
      return;
    }
    var lines := file.lines;
    assert lines[0..] == lines;
    var i := 0;
    while i < |lines|
      invariant 0 <= i <= |lines|
      invariant matches + ContentMatches(lines[i..], text, caseSensitive, i + 1)
             == ContentMatches(lines, text, caseSensitive, 1)
    {
      var line := lines[i];
      ContentMatchesStep(lines, text, caseSensitive, i);
      ghost var before := matches;
      ghost var later := ContentMatches(lines[i + 1..], text, caseSensitive, i + 2);
      ghost var contributed := LineMatches(line, text, caseSensitive, i + 1);
      if caseSensitive {
        if Contains(line, text) {
          var column := IndexOf(line, text);
          matches := matches + [LineMatch(i + 1, RStripNewlines(line), column)];
          assert contributed == [LineMatch(i + 1, RStripNewlines(line), column)];
        } else {
          assert contributed == [];
        }
      } else {
        if Contains(Lower(line), Lower(text)) {
          var column := IndexOf(Lower(line), Lower(text));
          matches := matches + [LineMatch(i + 1, RStripNewlines(line), column)];
          assert contributed == [LineMatch(i + 1, RStripNewlines(line), column)];
        } else {
          assert contributed == [];
        }
      }
      assert matches == before + contributed;
      AppendAssociates(before, contributed, later);
      i := i + 1;
    }
    assert matches + [] == matches;
  }

  /** A directory as `os.walk` lists it. */
  datatype Dir = Dir(name: string, files: seq<FileInfo>, subdirs: seq<Dir>)

  function Size(d: Dir): nat
    decreases d, 1
  {
    1 + SizeAll(d.subdirs)
  }

  function SizeAll(ds: seq<Dir>): nat
    decreases ds, 0
  {
    if ds == [] then 0 else Size(ds[0]) + SizeAll(ds[1..])
  }

  /** `os.path.join(parent, name)` for a name without "/". */
  function JoinPath(parent: string, name: string): string {
    if parent == "" || EndsWith(parent, "/") then parent + name else parent + "/" + name
  }

  function CountSlashes(s: string): nat {
    if s == [] then 0 else (if s[0] == '/' then 1 else 0) + CountSlashes(s[1..])
  }

  /** `dirpath[len(root_path):].count(os.sep)` */
  function Depth(root: string, dirpath: string): nat {
    if |root| <= |dirpath| then CountSlashes(dirpath[|root|..]) else CountSlashes([])
  }

  lemma {:induction false} CountSlashesAppend(a: string, b: string)
    ensures CountSlashes(a + b) == CountSlashes(a) + CountSlashes(b)
  {
    if a == [] {
      assert a + b == b;
    } else {
      assert (a + b)[0] == a[0];
      assert (a + b)[1..] == a[1..] + b;
      CountSlashesAppend(a[1..], b);
    }
  }

  lemma {:induction false} CountSlashesNone(s: string)
    requires '/' !in s
    ensures CountSlashes(s) == 0
  {
    if s != [] {
      assert s[1..] == s[1..];
      assert forall c :: c in s[1..] ==> c in s;
      CountSlashesNone(s[1..]);
    }
  }

  /** A child directory is one level deeper than its parent, except that a
      root written with a trailing "/" gives its children the root's own
      depth: the walk then allows one level more. */
  lemma ChildDepth(root: string, parent: string, name: string)
    requires |root| <= |parent| && '/' !in name
    ensures Depth(root, JoinPath(parent, name))
         == Depth(root, parent) + (if parent == "" || EndsWith(parent, "/") then 0 else 1)
  {
    var child := JoinPath(parent, name);
    CountSlashesNone(name);
    if parent == "" || EndsWith(parent, "/") {
      assert child[|root|..] == parent[|root|..] + name;
      CountSlashesAppend(parent[|root|..], name);
    } else {
      assert child[|root|..] == parent[|root|..] + ("/" + name);
      CountSlashesAppend(parent[|root|..], "/" + name);
      assert ("/" + name)[1..] == name;
    }
  }

  lemma TrailingSlashUndercounts(name: string)
    requires '/' !in name
    ensures Depth("src", JoinPath("src", name)) == 1
    ensures Depth("src/", JoinPath("src/", name)) == 0
  {
    ChildDepth("src", "src", name);
    ChildDepth("src/", "src/", name);
    assert "src"[3..] == [];
    assert "src/"[4..] == [];
  }

  datatype SearchOptions = SearchOptions(
    pattern: Option<string>,
    content: Option<string>,
    caseSensitive: bool,
    maxResults: int,
    includeHidden: bool,
    respectGitignore: bool,
    extensions: seq<string>,
    maxDepth: Option<int>,
    maxFileSizeMb: int)

  /** Python truthiness of an optional string argument. */
  predicate Given(s: Option<string>) {
    s.Some? && s.value != ""
  }

  /** The .gitignore patterns in force: `if patterns:` drops None and []. */
  function PatternsInForce(file: GitignoreFile, respect: bool): seq<string> {
    if respect && file.Lines? then KeptPatterns(file.lines) else []
  }

  /** What stays fixed during one search. */
  datatype Walk = Walk(root: string, opts: SearchOptions, patterns: seq<string>, fnmatch: Glob)

  /** A subdirectory the walk descends into. */
  predicate KeepsDir(w: Walk, dirpath: string, d: Dir) {
    && (w.opts.includeHidden || !StartsWith(d.name, "."))
    && !(w.opts.respectGitignore && w.patterns != [] && ShouldIgnore(JoinPath(dirpath, d.name), w.patterns, w.fnmatch))
  }

  function KeptDirs(w: Walk, dirpath: string, ds: seq<Dir>): (r: seq<Dir>)
    ensures SizeAll(r) <= SizeAll(ds)
  {
    if ds == [] then []
    else
      var rest := KeptDirs(w, dirpath, ds[1..]);
      if KeepsDir(w, dirpath, ds[0]) then
        assert SizeAll([ds[0]] + rest) == Size(ds[0]) + SizeAll(rest) by {
          assert ([ds[0]] + rest)[1..] == rest;
        }
        [ds[0]] + rest
      else rest
  }

  /** A file that passes the hidden, .gitignore, extension and name filters. */
  predicate FilePasses(w: Walk, dirpath: string, f: FileInfo) {
    && (w.opts.includeHidden || !StartsWith(f.name, "."))
    && !(w.opts.respectGitignore && w.patterns != [] && ShouldIgnore(JoinPath(dirpath, f.name), w.patterns, w.fnmatch))
    && MatchesExtension(f.name, w.opts.extensions)
    && !(Given(w.opts.pattern) && !w.fnmatch(f.name, w.opts.pattern.value))
  }

  /** The matches a file contributes: none without a content search. */
  function FileMatches(opts: SearchOptions, f: FileInfo): seq<LineMatch> {
    if Given(opts.content) && Searchable(f, opts.maxFileSizeMb)
    then ContentMatches(f.lines, opts.content.value, opts.caseSensitive, 1)
    else []
  }

  /** A file that becomes a result: it passes the filters and, with a
      content search, holds the text somewhere. */
  predicate Qualifies(w: Walk, dirpath: string, f: FileInfo) {
    FilePasses(w, dirpath, f) && (!Given(w.opts.content) || FileMatches(w.opts, f) != [])
  }

  /** A directory whose files are listed and whose subdirectories are
      entered. */
  predicate DepthAllowed(w: Walk, dirpath: string) {
    w.opts.maxDepth.None? || Depth(w.root, dirpath) < w.opts.maxDepth.value
  }

  /** The qualifying files of one directory, with the directory's path. */
  function QualifyingFiles(w: Walk, dirpath: string, files: seq<FileInfo>): seq<(string, FileInfo)> {
    if files == [] then []
    else (if Qualifies(w, dirpath, files[0]) then [(dirpath, files[0])] else []) + QualifyingFiles(w, dirpath, files[1..])
  }

  function StackSize(stack: seq<(string, Dir)>): nat {
    if stack == [] then 0 else Size(stack[0].1) + StackSize(stack[1..])
  }

  function Entries(dirpath: string, ds: seq<Dir>): (r: seq<(string, Dir)>)
    ensures |r| == |ds|
  {
    if ds == [] then [] else [(JoinPath(dirpath, ds[0].name), ds[0])] + Entries(dirpath, ds[1..])
  }

  lemma {:induction false} StackSizeEntries(dirpath: string, ds: seq<Dir>, rest: seq<(string, Dir)>)
    ensures StackSize(Entries(dirpath, ds) + rest) == SizeAll(ds) + StackSize(rest)
  {
    if ds == [] {
      assert Entries(dirpath, ds) + rest == rest;
    } else {
      var e := Entries(dirpath, ds);
      assert (e + rest)[0] == e[0];
      assert (e + rest)[1..] == Entries(dirpath, ds[1..]) + rest;
      StackSizeEntries(dirpath, ds[1..], rest);
    }
  }

  /** The subdirectories `os.walk` enters after the filters, as paths. */
  function Children(w: Walk, dirpath: string, d: Dir): (r: seq<(string, Dir)>)
    ensures StackSize(r) < Size(d)
  {
    var kept := KeptDirs(w, dirpath, d.subdirs);
    StackSizeEntries(dirpath, kept, []);
    assert Entries(dirpath, kept) + [] == Entries(dirpath, kept);
    Entries(dirpath, kept)
  }

  /** The qualifying files below a directory, in the order of a top-down
      walk: the directory's own files, then each kept subdirectory in turn. A
      directory at the depth limit contributes nothing. */
  function QualifyingIn(w: Walk, dirpath: string, d: Dir): seq<(string, FileInfo)>
    decreases Size(d), 0
  {
    if !DepthAllowed(w, dirpath) then []
    else QualifyingFiles(w, dirpath, d.files) + QualifyingAll(w, Children(w, dirpath, d))
  }

  function QualifyingAll(w: Walk, stack: seq<(string, Dir)>): seq<(string, FileInfo)>
    decreases StackSize(stack), 1
  {
    if stack == [] then []
    else QualifyingIn(w, stack[0].0, stack[0].1) + QualifyingAll(w, stack[1..])
  }

  lemma {:induction false} QualifyingAllAppend(w: Walk, a: seq<(string, Dir)>, b: seq<(string, Dir)>)
    ensures QualifyingAll(w, a + b) == QualifyingAll(w, a) + QualifyingAll(w, b)
  {
    if a == [] {
      assert a + b == b;
    } else {
      assert (a + b)[0] == a[0];
      assert (a + b)[1..] == a[1..] + b;
      QualifyingAllAppend(w, a[1..], b);
    }
  }

  /** Every file `QualifyingFiles` lists qualifies and lies in `dirpath`. */
  lemma {:induction false} QualifyingFilesSound(w: Walk, dirpath: string, files: seq<FileInfo>)
    ensures forall e :: e in QualifyingFiles(w, dirpath, files) ==>
      e.0 == dirpath && e.1 in files && Qualifies(w, e.0, e.1)
  {
    if files != [] {
      QualifyingFilesSound(w, dirpath, files[1..]);
    }
  }

  /** Every file a walk reports qualifies and lies in a directory within the
      depth limit. */
  lemma {:induction false} QualifyingInSound(w: Walk, dirpath: string, d: Dir)
    ensures forall e :: e in QualifyingIn(w, dirpath, d) ==> Qualifies(w, e.0, e.1) && DepthAllowed(w, e.0)
    decreases Size(d), 0
  {
    if DepthAllowed(w, dirpath) {
      QualifyingFilesSound(w, dirpath, d.files);
      QualifyingAllSound(w, Children(w, dirpath, d));
    }
  }

  lemma {:induction false} QualifyingAllSound(w: Walk, stack: seq<(string, Dir)>)
    ensures forall e :: e in QualifyingAll(w, stack) ==> Qualifies(w, e.0, e.1) && DepthAllowed(w, e.0)
    decreases StackSize(stack), 1
  {
    if stack != [] {
      QualifyingInSound(w, stack[0].0, stack[0].1);
      QualifyingAllSound(w, stack[1..]);
    }
  }

  /** Every qualifying file of a directory within the depth limit is
      reported by the walk of that directory. */
  lemma {:induction false} QualifyingFilesComplete(w: Walk, dirpath: string, files: seq<FileInfo>, f: FileInfo)
    requires f in files && Qualifies(w, dirpath, f)
    ensures (dirpath, f) in QualifyingFiles(w, dirpath, files)
  {
    if files[0] != f {
      QualifyingFilesComplete(w, dirpath, files[1..], f);
    }
  }

  /** With a depth limit, a directory at that depth reports nothing, and a
      root written with a trailing "/" lets one more level through. */
  lemma DepthLimitStops(w: Walk, dirpath: string, d: Dir)
    requires w.opts.maxDepth.Some? && Depth(w.root, dirpath) >= w.opts.maxDepth.value
    ensures QualifyingIn(w, dirpath, d) == []
  {
  }

  lemma QualifyingSplits(w: Walk, dirpath: string, d: Dir, rest: seq<(string, Dir)>)
    requires DepthAllowed(w, dirpath)
    ensures QualifyingAll(w, [(dirpath, d)] + rest)
         == QualifyingFiles(w, dirpath, d.files) + QualifyingAll(w, Children(w, dirpath, d) + rest)
  {
    var s := [(dirpath, d)] + rest;
    assert s[0] == (dirpath, d) && s[1..] == rest;
    QualifyingAllAppend(w, Children(w, dirpath, d), rest);
    PairsAssociate(QualifyingFiles(w, dirpath, d.files), QualifyingAll(w, Children(w, dirpath, d)), QualifyingAll(w, rest));
  }

  /** What one directory's scan took and left, between what was taken
      before and what the remaining directories hold. */
  lemma ScanJoins(before: seq<(string, FileInfo)>, here: seq<(string, FileInfo)>, later: seq<(string, FileInfo)>,
                  origins: seq<(string, FileInfo)>, left: seq<(string, FileInfo)>, all: seq<(string, FileInfo)>)
    requires before + (here + later) == all
    requires origins + left == before + here
    ensures origins + (left + later) == all
  {
    PairsAssociate(before, here, later);
    PairsAssociate(origins, left, later);
  }

  /** A file that does not qualify leaves the files still to come as they
      were. */
  lemma QualifyingFilesSkip(w: Walk, dirpath: string, files: seq<FileInfo>, i: nat,
                            done: seq<(string, FileInfo)>, whole: seq<(string, FileInfo)>)
    requires i < |files| && !Qualifies(w, dirpath, files[i])
    requires done + QualifyingFiles(w, dirpath, files[i..]) == whole
    ensures done + QualifyingFiles(w, dirpath, files[i + 1..]) == whole
  {
    assert files[i..][1..] == files[i + 1..];
  }

  /** A file that qualifies is the next of the files still to come. */
  lemma QualifyingFilesTake(w: Walk, dirpath: string, files: seq<FileInfo>, i: nat,
                            done: seq<(string, FileInfo)>, whole: seq<(string, FileInfo)>)
    requires i < |files| && Qualifies(w, dirpath, files[i])
    requires done + QualifyingFiles(w, dirpath, files[i..]) == whole
    ensures QualifyingFiles(w, dirpath, files[i..]) == [(dirpath, files[i])] + QualifyingFiles(w, dirpath, files[i + 1..])
    ensures (done + [(dirpath, files[i])]) + QualifyingFiles(w, dirpath, files[i + 1..]) == whole
  {
    assert files[i..][1..] == files[i + 1..];
    PairsAssociate(done, [(dirpath, files[i])], QualifyingFiles(w, dirpath, files[i + 1..]));
  }

  lemma PairsAssociate(a: seq<(string, FileInfo)>, b: seq<(string, FileInfo)>, c: seq<(string, FileInfo)>)
    ensures (a + b) + c == a + (b + c)
  {
  }

  lemma CappedPrefix<T>(all: seq<T>, done: seq<T>, cap: nat)
    requires |done| <= |all| && done == all[..|done|]
    requires |done| == cap || (done == all && |all| <= cap)
    ensures done == SliceTo(all, cap)
  {
  }

  lemma PrefixOf(done: seq<(string, FileInfo)>, remaining: seq<(string, FileInfo)>, all: seq<(string, FileInfo)>)
    requires done + remaining == all
    ensures |done| <= |all| && done == all[..|done|]
    ensures remaining != [] ==> all[|done|] == remaining[0]
  {
    assert all[..|done|] == done;
  }

  /** A file that passed the filters becomes a result unless a content
      search finds nothing in it. */
  predicate Matches(opts: SearchOptions, f: FileInfo) {
    !Given(opts.content) || FileMatches(opts, f) != []
  }

  /** The files of one directory that pass the filters, with the
      directory's path: the files `total_files_searched` counts. */
  function PassingFiles(w: Walk, dirpath: string, files: seq<FileInfo>): seq<(string, FileInfo)> {
    if files == [] then []
    else (if FilePasses(w, dirpath, files[0]) then [(dirpath, files[0])] else []) + PassingFiles(w, dirpath, files[1..])
  }

  /** The passing files below a directory, in the order of a top-down walk. */
  function PassingIn(w: Walk, dirpath: string, d: Dir): seq<(string, FileInfo)>
    decreases Size(d), 0
  {
    if !DepthAllowed(w, dirpath) then []
    else PassingFiles(w, dirpath, d.files) + PassingAll(w, Children(w, dirpath, d))
  }

  function PassingAll(w: Walk, stack: seq<(string, Dir)>): seq<(string, FileInfo)>
    decreases StackSize(stack), 1
  {
    if stack == [] then []
    else PassingIn(w, stack[0].0, stack[0].1) + PassingAll(w, stack[1..])
  }

  lemma {:induction false} PassingAllAppend(w: Walk, a: seq<(string, Dir)>, b: seq<(string, Dir)>)
    ensures PassingAll(w, a + b) == PassingAll(w, a) + PassingAll(w, b)
  {
    if a == [] {
      assert a + b == b;
    } else {
      assert (a + b)[0] == a[0];
      assert (a + b)[1..] == a[1..] + b;
      PassingAllAppend(w, a[1..], b);
    }
  }

  lemma PassingSplits(w: Walk, dirpath: string, d: Dir, rest: seq<(string, Dir)>)
    requires DepthAllowed(w, dirpath)
    ensures PassingAll(w, [(dirpath, d)] + rest)
         == PassingFiles(w, dirpath, d.files) + PassingAll(w, Children(w, dirpath, d) + rest)
  {
    var s := [(dirpath, d)] + rest;
    assert s[0] == (dirpath, d) && s[1..] == rest;
    PassingAllAppend(w, Children(w, dirpath, d), rest);
    PairsAssociate(PassingFiles(w, dirpath, d.files), PassingAll(w, Children(w, dirpath, d)), PassingAll(w, rest));
  }

  /** One file of the directory loop against the passing files still to
      come: a failing file is not among them, a passing one is the next. */
  lemma PassingFilesStep(w: Walk, dirpath: string, files: seq<FileInfo>, i: nat,
                         seen: seq<(string, FileInfo)>, whole: seq<(string, FileInfo)>)
    requires i < |files|
    requires seen + PassingFiles(w, dirpath, files[i..]) == whole
    ensures !FilePasses(w, dirpath, files[i]) ==> seen + PassingFiles(w, dirpath, files[i + 1..]) == whole
    ensures FilePasses(w, dirpath, files[i]) ==>
      (seen + [(dirpath, files[i])]) + PassingFiles(w, dirpath, files[i + 1..]) == whole
  {
    assert files[i..][1..] == files[i + 1..];
    PairsAssociate(seen, [(dirpath, files[i])], PassingFiles(w, dirpath, files[i + 1..]));
  }

  /** The entries of `es` that `keep` admits, in order. */
  function Kept<T>(keep: T -> bool, es: seq<T>): (r: seq<T>)
    ensures |r| <= |es|
  {
    if es == [] then [] else (if keep(es[0]) then [es[0]] else []) + Kept(keep, es[1..])
  }

  lemma {:induction false} KeptSnoc<T>(keep: T -> bool, es: seq<T>, e: T)
    ensures Kept(keep, es + [e]) == Kept(keep, es) + (if keep(e) then [e] else [])
  {
    if es == [] {
      assert es + [e] == [e];
      assert [e][1..] == [];
    } else {
      assert (es + [e])[0] == es[0];
      assert (es + [e])[1..] == es[1..] + [e];
      KeptSnoc(keep, es[1..], e);
      var x, y, z := if keep(es[0]) then [es[0]] else [], Kept(keep, es[1..]), if keep(e) then [e] else [];
      assert x + (y + z) == (x + y) + z;
    }
  }

  /** A last entry that is admitted is among the admitted ones. */
  lemma KeptLast<T>(keep: T -> bool, es: seq<T>)
    requires es != [] && keep(es[|es| - 1])
    ensures |Kept(keep, es)| > 0
  {
    var n := |es|;
    assert es == es[..n - 1] + [es[n - 1]];
    KeptSnoc(keep, es[..n - 1], es[n - 1]);
  }

  /** How many entries of `ps` a scan looks at when it stops right after the
      `cap`-th admitted one: all of them when fewer are admitted. */
  function Examined<T>(keep: T -> bool, ps: seq<T>, cap: nat): (r: nat)
    ensures r <= |ps|
  {
    if cap == 0 || ps == [] then 0
    else 1 + Examined(keep, ps[1..], if keep(ps[0]) then cap - 1 else cap)
  }

  /** A scan that stopped right after its `cap`-th admitted entry looked at
      exactly the entries it had seen. */
  lemma {:induction false} ExaminedStops<T>(keep: T -> bool, seen: seq<T>, rest: seq<T>, cap: nat)
    requires |Kept(keep, seen)| == cap
    requires seen == [] || keep(seen[|seen| - 1])
    ensures Examined(keep, seen + rest, cap) == |seen|
  {
    if seen != [] {
      KeptLast(keep, seen);
      var ps := seen + rest;
      assert ps[0] == seen[0] && ps[1..] == seen[1..] + rest;
      var cap' := if keep(seen[0]) then cap - 1 else cap;
      assert |Kept(keep, seen[1..])| == cap';
      if |seen| > 1 {
        assert seen[1..][|seen| - 2] == seen[|seen| - 1];
      }
      ExaminedStops(keep, seen[1..], rest, cap');
    }
  }

  /** A scan that ends below the cap looks at every entry. */
  lemma {:induction false} ExaminedAll<T>(keep: T -> bool, ps: seq<T>, cap: nat)
    requires |Kept(keep, ps)| < cap
    ensures Examined(keep, ps, cap) == |ps|
  {
    if ps != [] {
      ExaminedAll(keep, ps[1..], if keep(ps[0]) then cap - 1 else cap);
    }
  }

  /** When every entry is admitted, a scan looks at the first `cap`. */
  lemma {:induction false} ExaminedEveryKept<T>(keep: T -> bool, ps: seq<T>, cap: nat)
    requires forall e :: keep(e)
    ensures Examined(keep, ps, cap) == (if |ps| < cap then |ps| else cap)
    ensures Kept(keep, ps) == ps
  {
    if ps != [] {
      ExaminedEveryKept(keep, ps[1..], if cap == 0 then 0 else cap - 1);
      assert ps == [ps[0]] + ps[1..];
    }
  }

  /** The passing files that become results. */
  function MatchesEntry(opts: SearchOptions): ((string, FileInfo)) -> bool {
    (e: (string, FileInfo)) => Matches(opts, e.1)
  }

  /** Without a content search every passing file is a result, so the files
      searched are the results: the first `cap` passing files. */
  lemma ExaminedWithoutContent(opts: SearchOptions, ps: seq<(string, FileInfo)>, cap: nat)
    requires !Given(opts.content)
    ensures Examined(MatchesEntry(opts), ps, cap) == (if |ps| < cap then |ps| else cap)
    ensures Kept(MatchesEntry(opts), ps) == ps
  {
    ExaminedEveryKept(MatchesEntry(opts), ps, cap);
  }

  /** The walk's passing files seen so far: `searched` counts them, the
      results are those among them that match, and a search at its cap
      last looked at a file that became a result. */
  ghost predicate Counted(opts: SearchOptions, seen: seq<(string, FileInfo)>, origins: seq<(string, FileInfo)>, searched: nat) {
    && searched == |seen|
    && origins == Kept(MatchesEntry(opts), seen)
    && (|origins| >= Cap(opts.maxResults) && seen != [] ==> Matches(opts, seen[|seen| - 1].1))
  }

  /** One more passing file looked at: it is counted, and it joins the
      results when it matches (below the cap, as the loop checks first). */
  lemma CountedStep(opts: SearchOptions, seen: seq<(string, FileInfo)>, origins: seq<(string, FileInfo)>,
                    searched: nat, e: (string, FileInfo))
    requires Counted(opts, seen, origins, searched) && |origins| < Cap(opts.maxResults)
    ensures Matches(opts, e.1) ==> Counted(opts, seen + [e], origins + [e], searched + 1)
    ensures !Matches(opts, e.1) ==> Counted(opts, seen + [e], origins, searched + 1)
  {
    KeptSnoc(MatchesEntry(opts), seen, e);
    assert (seen + [e])[|seen|] == e;
  }

  datatype FileResult = FileResult(path: string, sizeBytes: nat, matches: seq<LineMatch>)

  datatype SearchReport = SearchReport(results: seq<FileResult>, totalFilesSearched: nat, totalMatches: nat)

  /** The result entry for a qualifying file whose size is known. */
  function ResultFor(opts: SearchOptions, e: (string, FileInfo)): FileResult
    requires e.1.size.Ok?
  {
    FileResult(JoinPath(e.0, e.1.name), e.1.size.value, FileMatches(opts, e.1))
  }

  function TotalMatches(results: seq<FileResult>): nat {
    if results == [] then 0 else TotalMatches(results[..|results| - 1]) + |results[|results| - 1].matches|
  }

  /** The number of results `max_results` allows. */
  function Cap(maxResults: int): nat {
    if maxResults < 0 then 0 else maxResults
  }

  /** What `search_files` walks: the root with the filters in force. */
  function SearchWalk(root: string, gitignore: GitignoreFile, opts: SearchOptions, fnmatch: Glob): Walk {
    Walk(root, opts, PatternsInForce(gitignore, opts.respectGitignore), fnmatch)
  }

  /** The checks `search_files` makes on one file name: the filters, then
      the content search when one is asked for. */
  method ConsiderFile(w: Walk, dirpath: string, f: FileInfo) returns (passes: bool, matches: seq<LineMatch>)
    ensures passes == FilePasses(w, dirpath, f)
    ensures matches == (if passes then FileMatches(w.opts, f) else [])
    ensures passes ==> ((!Given(w.opts.content) || matches != []) <==> Qualifies(w, dirpath, f))
  {
    matches := [];
    if !w.opts.includeHidden && StartsWith(f.name, ".") {
      return false, matches;
    }
    if w.opts.respectGitignore && w.patterns != [] && ShouldIgnore(JoinPath(dirpath, f.name), w.patterns, w.fnmatch) {
      return false, matches;
    }
    if !MatchesExtension(f.name, w.opts.extensions) {
      return false, matches;
    }
    if Given(w.opts.pattern) && !w.fnmatch(f.name, w.opts.pattern.value) {
      return false, matches;
    }
    passes := true;
    if Given(w.opts.content) {
      matches := SearchContentInFile(f, w.opts.content.value, w.opts.caseSensitive, w.opts.maxFileSizeMb);
    }
  }

  /** Each result is the entry of the file recorded at its position. */
  predicate ResultsMatch(opts: SearchOptions, origins: seq<(string, FileInfo)>, results: seq<FileResult>) {
    && |origins| == |results|
    && forall k :: 0 <= k < |origins| ==> origins[k].1.size.Ok? && results[k] == ResultFor(opts, origins[k])
  }

  /** The counters `search_files` keeps while it walks. */
  predicate Tally(opts: SearchOptions, origins: seq<(string, FileInfo)>, results: seq<FileResult>, searched: nat, total: nat) {
    && ResultsMatch(opts, origins, results)
    && |results| <= Cap(opts.maxResults)
    && searched >= |results|
    && total == TotalMatches(results)
  }

  lemma TallyAppend(opts: SearchOptions, origins: seq<(string, FileInfo)>, results: seq<FileResult>, searched: nat, total: nat,
                    e: (string, FileInfo))
    requires Tally(opts, origins, results, searched, total) && |results| < Cap(opts.maxResults)
    requires e.1.size.Ok?
    ensures Tally(opts, origins + [e], results + [ResultFor(opts, e)], searched + 1,
                  total + |FileMatches(opts, e.1)|)
  {
    var res := ResultFor(opts, e);
    assert (results + [res])[..|results|] == results;
  }

  /** The loop of `search_files` over the file names of one directory:
      `rest` is what of the directory's qualifying files is left when the
      loop stops, which it does early only at the result cap or at a size
      that cannot be read. */
  method ScanDirectory(w: Walk, dirpath: string, files: seq<FileInfo>,
                       results0: seq<FileResult>, ghost origins0: seq<(string, FileInfo)>, searched0: nat, total0: nat,
                       ghost seen0: seq<(string, FileInfo)>)
    returns (results: seq<FileResult>, ghost origins: seq<(string, FileInfo)>, searched: nat, total: nat,
             failure: Option<string>, ghost rest: seq<(string, FileInfo)>,
             ghost seen: seq<(string, FileInfo)>, ghost restPassing: seq<(string, FileInfo)>)
    requires Tally(w.opts, origins0, results0, searched0, total0)
    requires Counted(w.opts, seen0, origins0, searched0)
    ensures Tally(w.opts, origins, results, searched, total)
    ensures origins + rest == origins0 + QualifyingFiles(w, dirpath, files)
    ensures failure.Some? ==>
      && |results| < w.opts.maxResults
      && rest != [] && rest[0].1.size.Err? && failure.value == "Error during search: " + rest[0].1.size.error
    ensures failure.None? && rest != [] ==> |results| >= w.opts.maxResults
    ensures failure.None? ==>
      && Counted(w.opts, seen, origins, searched)
      && seen + restPassing == seen0 + PassingFiles(w, dirpath, files)
      && (|results| < w.opts.maxResults ==> restPassing == [])
  {
    results, origins, searched, total, seen := results0, origins0, searched0, total0, seen0;
    ghost var whole := origins0 + QualifyingFiles(w, dirpath, files);
    ghost var wholePassing := seen0 + PassingFiles(w, dirpath, files);
    assert files[0..] == files;
    var i := 0;
    while i < |files|
      invariant Scanning(w, dirpath, files, i, results, origins, searched, total, seen, whole, wholePassing)
    {
      if |results| >= w.opts.maxResults {
        rest, restPassing := QualifyingFiles(w, dirpath, files[i..]), PassingFiles(w, dirpath, files[i..]);
        assert Tally(w.opts, origins, results, searched, total);
        assert origins + rest == whole;
        assert Counted(w.opts, seen, origins, searched) && seen + restPassing == wholePassing;
        return results, origins, searched, total, None, rest, seen, restPassing;
      }
      var f := files[i];
      var failed;
      results, origins, searched, total, seen, failed :=
        ScanFile(w, dirpath, files, i, results, origins, searched, total, seen, whole, wholePassing);
      if failed.Some? {
        rest := QualifyingFiles(w, dirpath, files[i..]);
        assert Tally(w.opts, origins, results, searched, total) && origins + rest == whole;
        return results, origins, searched, total, failed, rest, seen, [];
      }
      i := i + 1;
    }
    assert files[i..] == [];
    rest, restPassing := [], [];
    assert origins + rest == origins;
    assert seen + restPassing == seen;
    failure := None;
  }

  /** One file of the directory loop below the cap: the filters, the
      content search, and the result entry, or the failure of its size. */
  method ScanFile(w: Walk, dirpath: string, files: seq<FileInfo>, i: int,
                  results0: seq<FileResult>, ghost origins0: seq<(string, FileInfo)>, searched0: nat, total0: nat,
                  ghost seen0: seq<(string, FileInfo)>, ghost whole: seq<(string, FileInfo)>,
                  ghost wholePassing: seq<(string, FileInfo)>)
    returns (results: seq<FileResult>, ghost origins: seq<(string, FileInfo)>, searched: nat, total: nat,
             ghost seen: seq<(string, FileInfo)>, failure: Option<string>)
    requires Scanning(w, dirpath, files, i, results0, origins0, searched0, total0, seen0, whole, wholePassing)
    requires i < |files| && |results0| < w.opts.maxResults
    ensures failure.None? ==>
      Scanning(w, dirpath, files, i + 1, results, origins, searched, total, seen, whole, wholePassing)
    ensures failure.Some? ==>
      && Tally(w.opts, origins, results, searched, total)
      && |results| < w.opts.maxResults
      && origins + QualifyingFiles(w, dirpath, files[i..]) == whole
      && QualifyingFiles(w, dirpath, files[i..]) != [] && QualifyingFiles(w, dirpath, files[i..])[0] == (dirpath, files[i])
      && files[i].size.Err? && failure.value == "Error during search: " + files[i].size.error
  {
    results, origins, searched, total, seen := results0, origins0, searched0, total0, seen0;
    var f := files[i];
    var passes, matches := ConsiderFile(w, dirpath, f);
    ScanStep(w, dirpath, files, i, results, origins, searched, total, seen, whole, wholePassing);
    failure := None;
    if passes {
      if !Given(w.opts.content) || matches != [] {
        if f.size.Err? {
          QualifyingFilesTake(w, dirpath, files, i, origins, whole);
          return results, origins, searched + 1, total, seen + [(dirpath, f)], Some("Error during search: " + f.size.error);
        }
        results := results + [FileResult(JoinPath(dirpath, f.name), f.size.value, matches)];
        total := total + |matches|;
        origins := origins + [(dirpath, f)];
      }
      searched := searched + 1;
      seen := seen + [(dirpath, f)];
    }
  }

  /** The state of the directory loop before file `i`: the counters agree
      with the results, and what was taken and what is left of the
      directory's qualifying and passing files make up the wholes. */
  ghost predicate Scanning(w: Walk, dirpath: string, files: seq<FileInfo>, i: int,
                           results: seq<FileResult>, origins: seq<(string, FileInfo)>, searched: nat, total: nat,
                           seen: seq<(string, FileInfo)>, whole: seq<(string, FileInfo)>,
                           wholePassing: seq<(string, FileInfo)>) {
    && 0 <= i <= |files|
    && Tally(w.opts, origins, results, searched, total)
    && origins + QualifyingFiles(w, dirpath, files[i..]) == whole
    && Counted(w.opts, seen, origins, searched)
    && seen + PassingFiles(w, dirpath, files[i..]) == wholePassing
  }

  /** One file of the directory loop below the cap: a file that fails a
      filter changes nothing, a passing one is counted, and a qualifying one
      with a known size also becomes a result. */
  lemma ScanStep(w: Walk, dirpath: string, files: seq<FileInfo>, i: int,
                 results: seq<FileResult>, origins: seq<(string, FileInfo)>, searched: nat, total: nat,
                 seen: seq<(string, FileInfo)>, whole: seq<(string, FileInfo)>,
                 wholePassing: seq<(string, FileInfo)>)
    requires Scanning(w, dirpath, files, i, results, origins, searched, total, seen, whole, wholePassing)
    requires i < |files| && |results| < w.opts.maxResults
    ensures var f := files[i]; var e := (dirpath, f);
      && (!FilePasses(w, dirpath, f) ==>
            Scanning(w, dirpath, files, i + 1, results, origins, searched, total, seen, whole, wholePassing))
      && (FilePasses(w, dirpath, f) && !Matches(w.opts, f) ==>
            Scanning(w, dirpath, files, i + 1, results, origins, searched + 1, total, seen + [e], whole, wholePassing))
      && (FilePasses(w, dirpath, f) && Matches(w.opts, f) && f.size.Ok? ==>
            && ResultFor(w.opts, e) == FileResult(JoinPath(dirpath, f.name), f.size.value, FileMatches(w.opts, f))
            && Scanning(w, dirpath, files, i + 1, results + [ResultFor(w.opts, e)], origins + [e], searched + 1,
                        total + |FileMatches(w.opts, f)|, seen + [e], whole, wholePassing))
  {
    var f := files[i];
    var e := (dirpath, f);
    PassingFilesStep(w, dirpath, files, i, seen, wholePassing);
    if !FilePasses(w, dirpath, f) {
      QualifyingFilesSkip(w, dirpath, files, i, origins, whole);
    } else {
      CountedStep(w.opts, seen, origins, searched, e);
      if Matches(w.opts, f) {
        QualifyingFilesTake(w, dirpath, files, i, origins, whole);
        if f.size.Ok? {
          TallyAppend(w.opts, origins, results, searched, total, e);
        }
      } else {
        QualifyingFilesSkip(w, dirpath, files, i, origins, whole);
      }
    }
  }

  /** What a search reports, given every qualifying file in walk order:
      the first `max_results` of them, or, when the size of one of those
      cannot be read, an error naming it and the files before it. */
  ghost predicate SearchOutcome(opts: SearchOptions, all: seq<(string, FileInfo)>, passing: seq<(string, FileInfo)>,
                                origins: seq<(string, FileInfo)>, r: Result<SearchReport, string>) {
    && |origins| <= Cap(opts.maxResults)
    && |origins| <= |all|
    && origins == all[..|origins|]
    && (r.Ok? ==>
          && origins == SliceTo(all, Cap(opts.maxResults))
          && ResultsMatch(opts, origins, r.value.results)
          && r.value.totalFilesSearched >= |r.value.results|
          && r.value.totalFilesSearched == Examined(MatchesEntry(opts), passing, Cap(opts.maxResults))
          && r.value.totalMatches == (if Given(opts.content) then TotalMatches(r.value.results) else |r.value.results|))
    && (r.Err? ==>
          && |origins| < Cap(opts.maxResults)
          && (forall k :: 0 <= k < |origins| ==> all[k].1.size.Ok?)
          && |origins| < |all| && all[|origins|].1.size.Err?
          && r.error == "Error during search: " + all[|origins|].1.size.error)
  }

  lemma OutcomeOk(opts: SearchOptions, all: seq<(string, FileInfo)>, passing: seq<(string, FileInfo)>,
                  origins: seq<(string, FileInfo)>, results: seq<FileResult>, searched: nat, total: nat,
                  seen: seq<(string, FileInfo)>, pendingPassing: seq<(string, FileInfo)>)
    requires Tally(opts, origins, results, searched, total)
    requires |origins| <= |all| && origins == all[..|origins|]
    requires |origins| == Cap(opts.maxResults) || origins == all
    requires Counted(opts, seen, origins, searched) && seen + pendingPassing == passing
    requires |results| < opts.maxResults ==> pendingPassing == []
    ensures SearchOutcome(opts, all, passing, origins,
                          Ok(SearchReport(results, searched, if Given(opts.content) then total else |results|)))
  {
    CappedPrefix(all, origins, Cap(opts.maxResults));
    if |origins| >= Cap(opts.maxResults) {
      ExaminedStops(MatchesEntry(opts), seen, pendingPassing, Cap(opts.maxResults));
    } else {
      assert seen + [] == seen;
      ExaminedAll(MatchesEntry(opts), passing, Cap(opts.maxResults));
    }
  }

  lemma OutcomeErr(opts: SearchOptions, all: seq<(string, FileInfo)>, passing: seq<(string, FileInfo)>,
                   origins: seq<(string, FileInfo)>,
                   results: seq<FileResult>, searched: nat, total: nat, left: seq<(string, FileInfo)>,
                   failure: string)
    requires Tally(opts, origins, results, searched, total) && |results| < opts.maxResults
    requires origins + left == all
    requires left != [] && left[0].1.size.Err? && failure == "Error during search: " + left[0].1.size.error
    ensures SearchOutcome(opts, all, passing, origins, Err(failure))
  {
    PrefixOf(origins, left, all);
  }

  /** `search_files`: walk the tree top-down from `root`, skipping
      directories at or beyond the maximum depth, and report the first
      `max_results` qualifying files; `origins` names the directory and file
      of each result. */
  method SearchFiles(root: string, tree: Option<Dir>, gitignore: GitignoreFile, opts: SearchOptions, fnmatch: Glob)
    returns (r: Result<SearchReport, string>, ghost origins: seq<(string, FileInfo)>)
    ensures tree.None? ==> r == Err("Error: Path does not exist: " + root)
    ensures tree.Some? ==>
      var w := SearchWalk(root, gitignore, opts, fnmatch);
      SearchOutcome(opts, QualifyingAll(w, [(root, tree.value)]), PassingAll(w, [(root, tree.value)]), origins, r)
  {
    origins := [];
    if tree.None? {
      return Err("Error: Path does not exist: " + root), origins;
    }
    var patterns: seq<string> := [];
    if opts.respectGitignore {
      var parsed := ParseGitignore(gitignore);
      if parsed.Some? && parsed.value != [] {
        patterns := parsed.value;
      }
    }
    var w := Walk(root, opts, patterns, fnmatch);
    assert w == SearchWalk(root, gitignore, opts, fnmatch);
    var results, searched, total, failure;
    ghost var pending, seen, pendingPassing;
    results, origins, searched, total, failure, pending, seen, pendingPassing := WalkTree(w, [(root, tree.value)]);
    if failure.Some? {
      OutcomeErr(opts, QualifyingAll(w, [(root, tree.value)]), PassingAll(w, [(root, tree.value)]), origins,
                 results, searched, total, pending, failure.value);
      return Err(failure.value), origins;
    }
    PrefixOf(origins, pending, QualifyingAll(w, [(root, tree.value)]));
    if pending == [] {
      assert origins + [] == origins;
    }
    OutcomeOk(opts, QualifyingAll(w, [(root, tree.value)]), PassingAll(w, [(root, tree.value)]), origins,
              results, searched, total, seen, pendingPassing);
    if !Given(opts.content) {
      total := |results|;
    }
    r := Ok(SearchReport(results, searched, total));
  }

  /** The `os.walk` loop's state: what it has reported and seen, followed by
      `left` of the current directory and then by the directories still on
      the `stack`, makes up the whole walk. */
  ghost predicate Walking(w: Walk, stack: seq<(string, Dir)>,
                          left: seq<(string, FileInfo)>, leftPassing: seq<(string, FileInfo)>,
                          results: seq<FileResult>, origins: seq<(string, FileInfo)>, searched: nat, total: nat,
                          seen: seq<(string, FileInfo)>,
                          all: seq<(string, FileInfo)>, allPassing: seq<(string, FileInfo)>)
  {
    && Tally(w.opts, origins, results, searched, total)
    && origins + (left + QualifyingAll(w, stack)) == all
    && Counted(w.opts, seen, origins, searched)
    && seen + (leftPassing + PassingAll(w, stack)) == allPassing
  }

  /** A directory beyond the depth limit contributes nothing, nor do its
      subdirectories. */
  lemma SkipsDir(w: Walk, dirpath: string, d: Dir, rest: seq<(string, Dir)>)
    requires !DepthAllowed(w, dirpath)
    ensures QualifyingAll(w, [(dirpath, d)] + rest) == QualifyingAll(w, rest)
    ensures PassingAll(w, [(dirpath, d)] + rest) == PassingAll(w, rest)
  {
    var s := [(dirpath, d)] + rest;
    assert s[0] == (dirpath, d) && s[1..] == rest;
  }

  /** Scanning the files of the directory on top of the stack and pushing its
      kept subdirectories keeps the qualifying files accounted for. */
  lemma QualifyingEnters(w: Walk, dirpath: string, d: Dir, rest: seq<(string, Dir)>,
                         before: seq<(string, FileInfo)>, origins: seq<(string, FileInfo)>,
                         left: seq<(string, FileInfo)>, all: seq<(string, FileInfo)>)
    requires DepthAllowed(w, dirpath)
    requires before + ([] + QualifyingAll(w, [(dirpath, d)] + rest)) == all
    requires origins + left == before + QualifyingFiles(w, dirpath, d.files)
    ensures origins + (left + QualifyingAll(w, Children(w, dirpath, d) + rest)) == all
  {
    QualifyingSplits(w, dirpath, d, rest);
    assert [] + QualifyingAll(w, [(dirpath, d)] + rest) == QualifyingAll(w, [(dirpath, d)] + rest);
    ScanJoins(before, QualifyingFiles(w, dirpath, d.files), QualifyingAll(w, Children(w, dirpath, d) + rest),
              origins, left, all);
  }

  /** The same for the passing files. */
  lemma PassingEnters(w: Walk, dirpath: string, d: Dir, rest: seq<(string, Dir)>,
                      before: seq<(string, FileInfo)>, seen: seq<(string, FileInfo)>,
                      left: seq<(string, FileInfo)>, all: seq<(string, FileInfo)>)
    requires DepthAllowed(w, dirpath)
    requires before + ([] + PassingAll(w, [(dirpath, d)] + rest)) == all
    requires seen + left == before + PassingFiles(w, dirpath, d.files)
    ensures seen + (left + PassingAll(w, Children(w, dirpath, d) + rest)) == all
  {
    PassingSplits(w, dirpath, d, rest);
    assert [] + PassingAll(w, [(dirpath, d)] + rest) == PassingAll(w, [(dirpath, d)] + rest);
    ScanJoins(before, PassingFiles(w, dirpath, d.files), PassingAll(w, Children(w, dirpath, d) + rest),
              seen, left, all);
  }

  /** One step of the `os.walk` loop: the directory on top of the stack is
      skipped beyond the depth limit, otherwise its files are scanned and its
      kept subdirectories take its place. */
  method VisitDir(w: Walk, stack0: seq<(string, Dir)>,
                  results0: seq<FileResult>, ghost origins0: seq<(string, FileInfo)>, searched0: nat, total0: nat,
                  ghost seen0: seq<(string, FileInfo)>,
                  ghost all: seq<(string, FileInfo)>, ghost allPassing: seq<(string, FileInfo)>)
    returns (stack: seq<(string, Dir)>,
             results: seq<FileResult>, ghost origins: seq<(string, FileInfo)>, searched: nat, total: nat,
             failure: Option<string>, ghost left: seq<(string, FileInfo)>,
             ghost seen: seq<(string, FileInfo)>, ghost leftPassing: seq<(string, FileInfo)>)
    requires stack0 != []
    requires Walking(w, stack0, [], [], results0, origins0, searched0, total0, seen0, all, allPassing)
    ensures StackSize(stack) < StackSize(stack0)
    ensures failure.Some? ==>
      && Tally(w.opts, origins, results, searched, total)
      && |results| < w.opts.maxResults
      && origins + left == all
      && left != [] && left[0].1.size.Err? && failure.value == "Error during search: " + left[0].1.size.error
    ensures failure.None? ==>
      && Walking(w, stack, left, leftPassing, results, origins, searched, total, seen, all, allPassing)
      && (|results| < w.opts.maxResults ==> left == [] && leftPassing == [])
  {
    var dirpath := stack0[0].0;
    var dir := stack0[0].1;
    var rest := stack0[1..];
    assert stack0 == [(dirpath, dir)] + rest;
    if w.opts.maxDepth.Some? && Depth(w.root, dirpath) >= w.opts.maxDepth.value {
      SkipsDir(w, dirpath, dir, rest);
      return rest, results0, origins0, searched0, total0, None, [], seen0, [];
    }
    stack := Children(w, dirpath, dir) + rest;
    StackSizeEntries(dirpath, KeptDirs(w, dirpath, dir.subdirs), rest);
    results, origins, searched, total, failure, left, seen, leftPassing :=
      ScanDirectory(w, dirpath, dir.files, results0, origins0, searched0, total0, seen0);
    QualifyingEnters(w, dirpath, dir, rest, origins0, origins, left, all);
    if failure.Some? {
      left := left + QualifyingAll(w, stack);
      return;
    }
    PassingEnters(w, dirpath, dir, rest, seen0, seen, leftPassing, allPassing);
  }

  /** The `os.walk` loop of `search_files` from the directories in `start`:
      `pending` is what of their qualifying files is left when the loop
      stops, which it does early only at the result cap or at a size that
      cannot be read. */
  method WalkTree(w: Walk, start: seq<(string, Dir)>)
    returns (results: seq<FileResult>, ghost origins: seq<(string, FileInfo)>, searched: nat, total: nat,
             failure: Option<string>, ghost pending: seq<(string, FileInfo)>,
             ghost seen: seq<(string, FileInfo)>, ghost pendingPassing: seq<(string, FileInfo)>)
    ensures Tally(w.opts, origins, results, searched, total)
    ensures origins + pending == QualifyingAll(w, start)
    ensures failure.Some? ==>
      && |results| < w.opts.maxResults
      && pending != [] && pending[0].1.size.Err? && failure.value == "Error during search: " + pending[0].1.size.error
    ensures failure.None? && pending != [] ==> |results| >= w.opts.maxResults
    ensures failure.None? ==>
      && Counted(w.opts, seen, origins, searched)
      && seen + pendingPassing == PassingAll(w, start)
      && (|results| < w.opts.maxResults ==> pendingPassing == [])
  {
    ghost var all := QualifyingAll(w, start);
    ghost var allPassing := PassingAll(w, start);
    results, origins, searched, total, seen := [], [], 0, 0, [];
    var stack := start;
    assert [] + ([] + all) == all;
    assert [] + ([] + allPassing) == allPassing;
    while stack != []
      invariant Walking(w, stack, [], [], results, origins, searched, total, seen, all, allPassing)
      decreases StackSize(stack)
    {
      ghost var left, leftPassing;
      stack, results, origins, searched, total, failure, left, seen, leftPassing :=
        VisitDir(w, stack, results, origins, searched, total, seen, all, allPassing);
      if failure.Some? {
        return results, origins, searched, total, failure, left, seen, [];
      }
      if |results| >= w.opts.maxResults {
        return results, origins, searched, total, failure, left + QualifyingAll(w, stack),
          seen, leftPassing + PassingAll(w, stack);
      }
    }
    assert origins + ([] + []) == origins;
    assert seen + ([] + []) == seen;
    failure, pending, pendingPassing := None, [], [];
  }

  /** Every reported file passes the filters, lies within the depth limit
      and, with a content search, holds the text. */
  lemma ReportedQualify(root: string, tree: Dir, gitignore: GitignoreFile, opts: SearchOptions, fnmatch: Glob,
                        origins: seq<(string, FileInfo)>)
    requires origins == SliceTo(QualifyingAll(SearchWalk(root, gitignore, opts, fnmatch), [(root, tree)]), Cap(opts.maxResults))
    ensures |origins| <= Cap(opts.maxResults)
    ensures forall e :: e in origins ==>
      var w := SearchWalk(root, gitignore, opts, fnmatch);
      FilePasses(w, e.0, e.1) && DepthAllowed(w, e.0)
      && (Given(opts.content) ==> FileMatches(opts, e.1) != [])
  {
    var w := SearchWalk(root, gitignore, opts, fnmatch);
    QualifyingAllSound(w, [(root, tree)]);
    forall e | e in origins
      ensures FilePasses(w, e.0, e.1) && DepthAllowed(w, e.0)
      ensures Given(opts.content) ==> FileMatches(opts, e.1) != []
    {
      assert e in QualifyingAll(w, [(root, tree)]);
    }
  }
}
