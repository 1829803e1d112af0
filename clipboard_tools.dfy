/** The clipboard history and the snippet table of
    server/tools/clipboard_tools.py. The two JSON files the tool loads and
    saves are the fields of a `ClipboardStore`; the system clipboard is read
    as an input that either yields its text or fails with a message, and the
    clock is a timestamp text. */
module ClipboardTools {
  import opened Wrappers
  import opened Strings
  import OrderedDict

  /** History is truncated to this many entries after an insertion. */
  const MaxHistory: nat := 100
  /** Entries shown by `history` when no limit is given. */
  const DefaultLimit: int := 10

  datatype HistoryEntry = HistoryEntry(content: string, timestamp: string, preview: string)

  datatype Snippet = Snippet(content: string, tags: seq<string>, created: string, preview: string)

  type Snippets = OrderedDict.Dict<string, Snippet>

  /** A line of 80 '=' characters. */
  const Rule: string := "================================================================================"

  /** The first `n` characters, followed by "..." when something was cut. */
  function Shortened(s: string, n: nat): (r: string)
    ensures |s| <= n ==> r == s
    ensures |s| > n ==> |r| == n + 3 && r[..n] == s[..n] && r[n..] == "..."
  {
    if |s| > n then s[..n] + "..." else s
  }

  /** Shortening what was already shortened to the same width changes
      nothing. */
  lemma ShortenedIdempotent(s: string, n: nat)
    ensures Shortened(Shortened(s, n), n) == Shortened(s, n)
  {
    if |s| > n {
      assert Shortened(s, n)[..n] == s[..n];
    }
  }

  /** The stored preview of a history entry or a snippet. */
  function Preview(content: string): string {
    Shortened(content, 100)
  }

  /** What `capture` leaves in the history: the new content in front, the
      list cut to MaxHistory, unless it equals the current head. */
  function Captured(history: seq<HistoryEntry>, content: string, now: string): seq<HistoryEntry> {
    if history == [] || history[0].content != content then
      SliceTo([HistoryEntry(content, now, Preview(content))] + history, MaxHistory)
    else history
  }

  /** No entry repeats the content of the entry just after it. */
  ghost predicate NoAdjacentRepeat(history: seq<HistoryEntry>) {
    forall i :: 0 <= i < |history| - 1 ==> history[i].content != history[i + 1].content
  }

  /** After a capture the newest entry holds the captured content, the older
      entries follow in their old order with the oldest cut off, the bound
      MaxHistory holds when it held before, and no content is repeated at the
      head. */
  lemma CapturedShape(history: seq<HistoryEntry>, content: string, now: string)
    ensures var r := Captured(history, content, now);
      && r != [] && r[0].content == content
      && (r == history || (r[0] == HistoryEntry(content, now, Preview(content)) && r[1..] == SliceTo(history, MaxHistory - 1)))
      && (|history| <= MaxHistory ==> |r| <= MaxHistory)
      && (NoAdjacentRepeat(history) ==> NoAdjacentRepeat(r))
  {
    var r := Captured(history, content, now);
    if history == [] || history[0].content != content {
      var e := HistoryEntry(content, now, Preview(content));
      assert r == ([e] + history)[..|r|];
      assert r[1..] == SliceTo(history, MaxHistory - 1);
    }
  }

  /** Capturing the same content twice in a row leaves the history as after
      the first capture. */
  lemma CaptureTwice(history: seq<HistoryEntry>, content: string, now: string, later: string)
    ensures Captured(Captured(history, content, now), content, later) == Captured(history, content, now)
  {
    CapturedShape(history, content, now);
  }

  /** The reply of a capture that went through. */
  function CapturedMessage(content: string, items: nat): string {
    "✅ Clipboard captured\nPreview: " + Shortened(content, 200) + "\n\nTotal history items: " + NatToString(items)
  }

  /** The lines `history` writes for one entry, numbered from 1. */
  function EntryBlock(number: nat, e: HistoryEntry): seq<string> {
    ["[" + NatToString(number) + "] " + e.timestamp, "    " + e.preview, ""]
  }

  /** The blocks of the listed entries, the first numbered `first`. */
  function EntryBlocks(shown: seq<HistoryEntry>, first: nat): (r: seq<string>)
    ensures |r| == 3 * |shown|
  {
    if shown == [] then [] else EntryBlock(first, shown[0]) + EntryBlocks(shown[1..], first + 1)
  }

  lemma {:induction false} EntryBlocksAppend(shown: seq<HistoryEntry>, e: HistoryEntry, first: nat)
    ensures EntryBlocks(shown + [e], first) == EntryBlocks(shown, first) + EntryBlock(first + |shown|, e)
    decreases |shown|
  {
    if shown != [] {
      assert (shown + [e])[1..] == shown[1..] + [e];
      EntryBlocksAppend(shown[1..], e, first + 1);
    }
  }

  /** Entry `i` of the listing is the i-th newest entry, numbered i + first. */
  lemma {:induction false} EntryBlocksAt(shown: seq<HistoryEntry>, first: nat, i: nat)
    requires i < |shown|
    ensures EntryBlocks(shown, first)[3 * i..3 * i + 3] == EntryBlock(first + i, shown[i])
    decreases i
  {
    if i > 0 {
      EntryBlocksAt(shown[1..], first + 1, i - 1);
      assert EntryBlocks(shown, first) == EntryBlock(first, shown[0]) + EntryBlocks(shown[1..], first + 1);
    }
  }

  function Min(a: int, b: int): int {
    if a < b then a else b
  }

  /** The lines of a non-empty history display. */
  function HistoryLines(history: seq<HistoryEntry>, limit: int): seq<string> {
    [Rule, "📋 CLIPBOARD HISTORY", Rule, ""]
    + EntryBlocks(SliceTo(history, limit), 1)
    + ["Showing " + IntToString(Min(limit, |history|)) + " of " + NatToString(|history|) + " items", Rule]
  }

  /** With a limit of zero or more, min(limit, len) entries are listed,
      newest first, and the "Showing" line counts exactly those. */
  lemma ShowsNewestFirst(history: seq<HistoryEntry>, limit: int)
    requires limit >= 0
    ensures |SliceTo(history, limit)| == Min(limit, |history|)
    ensures forall i :: 0 <= i < Min(limit, |history|) ==> SliceTo(history, limit)[i] == history[i]
  {
  }

  /** A negative limit follows Python slicing: all but the last |limit|
      entries are listed while the "Showing" line reports the limit itself. */
  lemma NegativeLimitMiscounts()
    ensures var h := [HistoryEntry("a", "t1", "a"), HistoryEntry("b", "t2", "b"), HistoryEntry("c", "t3", "c")];
      |SliceTo(h, -1)| == 2 && Min(-1, |h|) == -1
  {
  }

  /** The line block `list` writes for one snippet. */
  function SnippetBlock(name: string, s: Snippet): seq<string> {
    ["• " + name, "  Tags: " + TagText(s.tags), "  Created: " + s.created, "  Preview: " + s.preview, ""]
  }

  /** Tags as `save` and `list` print them. */
  function TagText(tags: seq<string>): string {
    if tags == [] then "none" else Join(tags, ", ")
  }

  /** `tag_filter and tag_filter not in tags` */
  predicate FilteredOut(tagFilter: string, s: Snippet) {
    tagFilter != "" && tagFilter !in s.tags
  }

  /** The snippets `list` shows, in table order. */
  function Listed(items: Snippets, tagFilter: string): (r: Snippets)
    ensures |r| <= |items|
  {
    if items == [] then []
    else (if FilteredOut(tagFilter, items[0].1) then [] else [items[0]]) + Listed(items[1..], tagFilter)
  }

  lemma {:induction false} ListedAppend(items: Snippets, p: (string, Snippet), tagFilter: string)
    ensures Listed(items + [p], tagFilter) == Listed(items, tagFilter) + (if FilteredOut(tagFilter, p.1) then [] else [p])
    decreases |items|
  {
    if items != [] {
      assert (items + [p])[1..] == items[1..] + [p];
      ListedAppend(items[1..], p, tagFilter);
    }
  }

  /** A snippet is listed exactly when it is in the table and carries the
      filter tag (any snippet when there is no filter), and the listing
      keeps table order. */
  lemma {:induction false} ListedIff(items: Snippets, tagFilter: string)
    ensures forall p :: p in Listed(items, tagFilter) <==> p in items && !FilteredOut(tagFilter, p.1)
    ensures tagFilter == "" ==> Listed(items, tagFilter) == items
    decreases |items|
  {
    if items != [] {
      ListedIff(items[1..], tagFilter);
      assert items == [items[0]] + items[1..];
    }
  }

  /** The listing of one more snippet: its block is added when the filter
      keeps it. */
  lemma ListedStep(items: Snippets, i: nat, tagFilter: string)
    requires i < |items|
    ensures SnippetBlocks(Listed(items[..i + 1], tagFilter)) ==
      SnippetBlocks(Listed(items[..i], tagFilter))
      + (if FilteredOut(tagFilter, items[i].1) then [] else SnippetBlock(items[i].0, items[i].1))
  {
    assert items[..i + 1] == items[..i] + [items[i]];
    ListedAppend(items[..i], items[i], tagFilter);
    if !FilteredOut(tagFilter, items[i].1) {
      SnippetBlocksAppend(Listed(items[..i], tagFilter), items[i]);
    } else {
      assert Listed(items[..i], tagFilter) + [] == Listed(items[..i], tagFilter);
    }
  }

  const NoSnippets: string := "📝 No snippets saved. Use operation='save' to create snippets."

  const ListingHeader: seq<string> := [Rule, "📝 SAVED SNIPPETS", Rule, ""]

  function ListingFooter(count: nat): seq<string> {
    ["Total snippets: " + NatToString(count), Rule]
  }

  /** The lines of the listing: the blocks of the snippets the filter keeps,
      then the total of all snippets. */
  function Listing(items: Snippets, tagFilter: string): seq<string> {
    ListingHeader + SnippetBlocks(Listed(items, tagFilter)) + ListingFooter(|items|)
  }

  function SnippetBlocks(listed: Snippets): seq<string> {
    if listed == [] then [] else SnippetBlock(listed[0].0, listed[0].1) + SnippetBlocks(listed[1..])
  }

  lemma {:induction false} SnippetBlocksAppend(listed: Snippets, p: (string, Snippet))
    ensures SnippetBlocks(listed + [p]) == SnippetBlocks(listed) + SnippetBlock(p.0, p.1)
    decreases |listed|
  {
    if listed != [] {
      assert (listed + [p])[1..] == listed[1..] + [p];
      SnippetBlocksAppend(listed[1..], p);
    }
  }

  /** `code_to_markdown`: the content fenced as a code block. */
  function CodeToMarkdown(language: string, content: string): string {
    "```" + language + "\n" + content + "\n```"
  }

  /** Reading a fenced block back: the language up to the first line break,
      the content up to the closing fence. */
  function FromMarkdown(s: string): Option<(string, string)> {
    if |s| >= 8 && s[..3] == "```" && s[|s| - 4..] == "\n```" then
      var i := IndexOf(s[3..], "\n");
      if i >= 0 && 3 + i + 1 <= |s| - 4 then Some((s[3..3 + i], s[3 + i + 1..|s| - 4])) else None
    else None
  }

  /** A language name without a line break and any content come back out of
      the fenced block unchanged. */
  lemma MarkdownRoundTrip(language: string, content: string)
    requires '\n' !in language
    ensures FromMarkdown(CodeToMarkdown(language, content)) == Some((language, content))
  {
    var s := CodeToMarkdown(language, content);
    var t := s[3..];
    assert t == language + "\n" + content + "\n```";
    assert t[|language|..|language| + 1] == "\n";
    assert StartsWith(t[|language|..], "\n");
    ContainsAt(t, "\n", |language|);
    var i := IndexOf(t, "\n");
    assert i <= |language|;
    assert t[i] == '\n';
    assert forall j :: 0 <= j < |language| ==> t[j] == language[j];
    assert i == |language|;
    assert s[3..3 + i] == language;
    assert s[3 + i + 1..|s| - 4] == content;
  }

  /** The reply of `transform` with `transform_type` "code_to_markdown" on
      clipboard text `content`; `copied` says whether the result could be put
      back on the clipboard. */
  function CodeToMarkdownReply(content: string, language: Option<string>, copied: bool): (r: string)
    ensures IsBlank(content) ==> r == "❌ Clipboard is empty"
  {
    if IsBlank(content) then "❌ Clipboard is empty"
    else
      var result := CodeToMarkdown(language.GetOr("python"), content);
      if copied then "✅ Transformed: code_to_markdown\n\nResult (copied to clipboard):\n" + Shortened(result, 500)
      else "✅ Transformed: code_to_markdown\n\nResult:\n" + Shortened(result, 500) + "\n\n⚠️  Could not copy to clipboard"
  }

  /** The result shown by a code_to_markdown transform starts with the fence
      and the language, and holds the whole block whenever it fits in 500
      characters. */
  lemma CodeToMarkdownShown(content: string, language: Option<string>, copied: bool)
    requires !IsBlank(content)
    ensures var block := CodeToMarkdown(language.GetOr("python"), content);
      |block| <= 500 ==> Contains(CodeToMarkdownReply(content, language, copied), block)
  {
    var block := CodeToMarkdown(language.GetOr("python"), content);
    if |block| <= 500 {
      var head := if copied then "✅ Transformed: code_to_markdown\n\nResult (copied to clipboard):\n"
                  else "✅ Transformed: code_to_markdown\n\nResult:\n";
      var tail := if copied then "" else "\n\n⚠️  Could not copy to clipboard";
      assert CodeToMarkdownReply(content, language, copied) == head + block + tail;
      assert (head + block + tail)[|head|..|head| + |block|] == block;
      ContainsAt(head + block + tail, block, |head|);
    }
  }

  /** The snippet table and the message after `snippet` with operation
      "save": a name is required, an empty `content` falls back to the
      clipboard, blank content is refused; otherwise the snippet is stored
      under its name, replacing any earlier one, and no other entry changes. */
  function Saved(snippets: Snippets, name: string, content: string, clipboard: Result<string, string>,
                 tags: seq<string>, now: string): (r: (Snippets, string))
    ensures name == "" ==> r == (snippets, "❌ No name provided. Use 'name' parameter.")
    ensures name != "" && content == "" && clipboard.Err? ==>
      r == (snippets, "❌ Error with snippet: " + clipboard.error)
    ensures name != "" && (content != "" || clipboard.Ok?) ==>
      var c := if content != "" then content else clipboard.value;
      && (IsBlank(c) ==> r == (snippets, "❌ No content to save"))
      && (!IsBlank(c) ==>
            && OrderedDict.Find(r.0, name) == Some(Snippet(c, tags, now, Preview(c)))
            && (forall other :: other != name ==> OrderedDict.Find(r.0, other) == OrderedDict.Find(snippets, other))
            && r.1 == "✅ Snippet '" + name + "' saved\nTags: " + TagText(tags))
    ensures OrderedDict.Valid(snippets) ==> OrderedDict.Valid(r.0)
  {
    if name == "" then (snippets, "❌ No name provided. Use 'name' parameter.")
    else if content == "" && clipboard.Err? then (snippets, "❌ Error with snippet: " + clipboard.error)
    else
      var c := if content != "" then content else clipboard.value;
      if IsBlank(c) then (snippets, "❌ No content to save")
      else
        var entry := Snippet(c, tags, now, Preview(c));
        OrderedDict.PutOthers(snippets, name, entry);
        OrderedDict.PutKeepsValid(snippets, name, entry);
        (OrderedDict.Put(snippets, name, entry), "✅ Snippet '" + name + "' saved\nTags: " + TagText(tags))
  }

  /** The `enumerate(history[:limit], 1)` loop of `action_history`. */
  method ListEntries(shown: seq<HistoryEntry>) returns (blocks: seq<string>)
    ensures blocks == EntryBlocks(shown, 1)
  {
    blocks := [];
    var i := 0;
    while i < |shown|
      invariant 0 <= i <= |shown|
      invariant blocks == EntryBlocks(shown[..i], 1)
    {
      EntryBlocksAppend(shown[..i], shown[i], 1);
      assert shown[..i + 1] == shown[..i] + [shown[i]];
      blocks := blocks + EntryBlock(i + 1, shown[i]);
      i := i + 1;
    }
    assert shown[..i] == shown;
  }

  /** Whether a save operation takes place: a name, content (from the argument or
      the clipboard) that is not blank. */
  predicate SaveGoesThrough(name: string, content: string, clipboard: Result<string, string>) {
    && name != ""
    && (content != "" || clipboard.Ok?)
    && !IsBlank(if content != "" then content else clipboard.value)
  }

  /** A save that goes through stores the new snippet under its name. */
  lemma SavedStores(snippets: Snippets, name: string, content: string, clipboard: Result<string, string>,
                    tags: seq<string>, now: string)
    requires SaveGoesThrough(name, content, clipboard)
    ensures var c := if content != "" then content else clipboard.value;
      Saved(snippets, name, content, clipboard, tags, now)
      == (OrderedDict.Put(snippets, name, Snippet(c, tags, now, Preview(c))), "✅ Snippet '" + name + "' saved\nTags: " + TagText(tags))
  {
  }

  /** A JSON file of the store: the value it holds, or a file that exists
      but cannot be read or parsed. A missing file holds the empty value. */
  datatype FileState<T> = Holds(value: T) | Unreadable

  /** `load_*`: an unreadable file loads as the empty value. */
  function Load<T>(f: FileState<T>, empty: T): T {
    if f.Holds? then f.value else empty
  }

  /** How a `save_*` call ends. The file cannot be opened for writing and
      stays as it was; or it is truncated and the dump fails part way,
      leaving a file that no longer parses; or the value is written. The
      error is printed and swallowed, so the action's reply is the same in
      all three cases. */
  datatype SaveOutcome = Written | OpenFailed | WriteFailed

  /** The file after saving `value` into `before`. */
  function AfterSave<T>(save: SaveOutcome, before: FileState<T>, value: T): FileState<T> {
    match save
    case Written => Holds(value)
    case OpenFailed => before
    case WriteFailed => Unreadable
  }

  /** A save that went through is what the next load sees; one that failed
      part way leaves a file that loads as empty. */
  lemma SaveThenLoad<T>(before: FileState<T>, value: T, empty: T)
    ensures Load(AfterSave(Written, before, value), empty) == value
    ensures Load(AfterSave(OpenFailed, before, value), empty) == Load(before, empty)
    ensures Load(AfterSave(WriteFailed, before, value), empty) == empty
  {
  }

  /** A history file that cannot be read is replaced, at the next capture,
      by a history holding only the captured entry: the earlier entries are
      lost. */
  lemma UnreadableHistoryRestarts(content: string, now: string)
    ensures Captured(Load(Unreadable, []), content, now) == [HistoryEntry(content, now, Preview(content))]
  {
  }

  /** The same for a snippets file: the next save leaves only the new snippet. */
  lemma UnreadableSnippetsRestart(name: string, content: string, clipboard: Result<string, string>,
                                  tags: seq<string>, now: string)
    requires SaveGoesThrough(name, content, clipboard)
    ensures var c := if content != "" then content else clipboard.value;
      Saved(Load(Unreadable, []), name, content, clipboard, tags, now).0 == [(name, Snippet(c, tags, now, Preview(c)))]
  {
    SavedStores([], name, content, clipboard, tags, now);
  }

  class ClipboardStore {
    /** The history file, newest entry first. */
    var historyFile: FileState<seq<HistoryEntry>>
    /** The snippets file: name to snippet, in insertion order. */
    var snippetsFile: FileState<Snippets>

    ghost predicate Valid()
      reads this
    {
      && (historyFile.Holds? ==> |historyFile.value| <= MaxHistory && NoAdjacentRepeat(historyFile.value))
      && (snippetsFile.Holds? ==> OrderedDict.Valid(snippetsFile.value))
    }

    constructor ()
      ensures Valid() && historyFile == Holds([]) && snippetsFile == Holds([])
    {
      historyFile := Holds([]);
      snippetsFile := Holds([]);
    }

    /** `action_capture`: a capture that adds an entry saves the history,
        with `save` saying how the write ends; a repeat saves nothing. */
    method Capture(clipboard: Result<string, string>, now: string, save: SaveOutcome) returns (msg: string)
      requires Valid()
      modifies this
      ensures Valid()
      ensures snippetsFile == old(snippetsFile)
      ensures clipboard.Err? || IsBlank(clipboard.value) ==> historyFile == old(historyFile)
      ensures clipboard.Err? ==> msg == "❌ Error capturing clipboard: " + clipboard.error
      ensures clipboard.Ok? && IsBlank(clipboard.value) ==> msg == "❌ Clipboard is empty"
      ensures clipboard.Ok? && !IsBlank(clipboard.value) ==>
        var loaded := Load(old(historyFile), []);
        var h := Captured(loaded, clipboard.value, now);
        && h[0].content == clipboard.value
        && msg == CapturedMessage(clipboard.value, |h|)
        && historyFile == (if loaded != [] && loaded[0].content == clipboard.value then old(historyFile)
                           else AfterSave(save, old(historyFile), h))
    {
      if clipboard.Err? {
        return "❌ Error capturing clipboard: " + clipboard.error;
      }
      var content := clipboard.value;
      if IsBlank(content) {
        return "❌ Clipboard is empty";
      }
      var loaded := Load(historyFile, []);
      CapturedShape(loaded, content, now);
      var h := loaded;
      if loaded == [] || loaded[0].content != content {
        h := SliceTo([HistoryEntry(content, now, Preview(content))] + loaded, MaxHistory);
        historyFile := AfterSave(save, historyFile, h);
      }
      msg := CapturedMessage(content, |h|);
    }

    /** `action_history`: `limit` is the argument when given. */
    method ShowHistory(limit: Option<int>) returns (text: string)
      ensures Load(historyFile, []) == [] ==>
        text == "📋 Clipboard history is empty. Use 'capture' action to start tracking."
      ensures Load(historyFile, []) != [] ==>
        text == Join(HistoryLines(Load(historyFile, []), limit.GetOr(DefaultLimit)), "\n")
    {
      var loaded := Load(historyFile, []);
      if loaded == [] {
        return "📋 Clipboard history is empty. Use 'capture' action to start tracking.";
      }
      var n := limit.GetOr(DefaultLimit);
      var blocks := ListEntries(SliceTo(loaded, n));
      var output := [Rule, "📋 CLIPBOARD HISTORY", Rule, ""] + blocks
        + ["Showing " + IntToString(Min(n, |loaded|)) + " of " + NatToString(|loaded|) + " items", Rule];
      text := Join(output, "\n");
    }

    /** `snippet` with operation "save". An empty `content` argument falls
        back to the clipboard; a save that goes through writes the table,
        with `save` saying how the write ends. */
    method SaveSnippet(name: string, content: string, clipboard: Result<string, string>,
                       tags: seq<string>, now: string, save: SaveOutcome) returns (msg: string)
      requires Valid()
      modifies this
      ensures Valid()
      ensures historyFile == old(historyFile)
      ensures msg == Saved(Load(old(snippetsFile), []), name, content, clipboard, tags, now).1
      ensures snippetsFile ==
        if SaveGoesThrough(name, content, clipboard)
        then AfterSave(save, old(snippetsFile), Saved(Load(old(snippetsFile), []), name, content, clipboard, tags, now).0)
        else old(snippetsFile)
    {
      if name == "" {
        return "❌ No name provided. Use 'name' parameter.";
      }
      var c := content;
      if c == "" {
        if clipboard.Err? {
          return "❌ Error with snippet: " + clipboard.error;
        }
        c := clipboard.value;
      }
      if IsBlank(c) {
        return "❌ No content to save";
      }
      var table := Load(snippetsFile, []);
      var entry := Snippet(c, tags, now, Preview(c));
      OrderedDict.PutValid(table, name, entry);
      SavedStores(table, name, content, clipboard, tags, now);
      snippetsFile := AfterSave(save, snippetsFile, OrderedDict.Put(table, name, entry));
      msg := "✅ Snippet '" + name + "' saved\nTags: " + TagText(tags);
    }

    /** `snippet` with operation "get". */
    method GetSnippet(name: string) returns (msg: string)
      ensures name == "" ==> msg == "❌ No name provided"
      ensures name != "" && !OrderedDict.HasKey(Load(snippetsFile, []), name) ==>
        msg == "❌ Snippet '" + name + "' not found"
      ensures name != "" && OrderedDict.HasKey(Load(snippetsFile, []), name) ==>
        var table := Load(snippetsFile, []);
        exists i :: 0 <= i < |table| && table[i].0 == name
          && msg == "✅ Retrieved snippet '" + name + "'\n\nContent (copied to clipboard):\n" + table[i].1.content
    {
      if name == "" {
        return "❌ No name provided";
      }
      var found := OrderedDict.Find(Load(snippetsFile, []), name);
      if found.None? {
        return "❌ Snippet '" + name + "' not found";
      }
      msg := "✅ Retrieved snippet '" + name + "'\n\nContent (copied to clipboard):\n" + found.value.content;
    }

    /** `snippet` with operation "list": the snippets carrying `tagFilter`
        (all when it is empty), while the total counts every snippet. */
    method ListSnippets(tagFilter: string) returns (text: string)
      ensures Load(snippetsFile, []) == [] ==> text == NoSnippets
      ensures Load(snippetsFile, []) != [] ==> text == Join(Listing(Load(snippetsFile, []), tagFilter), "\n")
    {
      var table := Load(snippetsFile, []);
      if table == [] {
        return NoSnippets;
      }
      var output := ListingHeader;
      var i := 0;
      while i < |table|
        invariant 0 <= i <= |table|
        invariant output == ListingHeader + SnippetBlocks(Listed(table[..i], tagFilter))
      {
        ghost var blocks := SnippetBlocks(Listed(table[..i], tagFilter));
        ListedStep(table, i, tagFilter);
        if !FilteredOut(tagFilter, table[i].1) {
          output := output + SnippetBlock(table[i].0, table[i].1);
          assert output == ListingHeader + (blocks + SnippetBlock(table[i].0, table[i].1));
        } else {
          assert blocks + [] == blocks;
        }
        i := i + 1;
      }
      assert table[..i] == table;
      output := output + ListingFooter(|table|);
      text := Join(output, "\n");
    }

    /** `snippet` with operation "delete": a deletion writes the table, with
        `save` saying how the write ends. */
    method DeleteSnippet(name: string, save: SaveOutcome) returns (msg: string)
      requires Valid()
      modifies this
      ensures Valid()
      ensures historyFile == old(historyFile)
      ensures name == "" || !OrderedDict.HasKey(Load(old(snippetsFile), []), name) ==>
        snippetsFile == old(snippetsFile)
      ensures name == "" ==> msg == "❌ No name provided"
      ensures name != "" && !OrderedDict.HasKey(Load(old(snippetsFile), []), name) ==>
        msg == "❌ Snippet '" + name + "' not found"
      ensures name != "" && OrderedDict.HasKey(Load(old(snippetsFile), []), name) ==>
        var before := Load(old(snippetsFile), []);
        var t := OrderedDict.Remove(before, name);
        && snippetsFile == AfterSave(save, old(snippetsFile), t)
        && !OrderedDict.HasKey(t, name)
        && |t| == |before| - 1
        && (forall other :: other != name ==> OrderedDict.Find(t, other) == OrderedDict.Find(before, other))
        && msg == "✅ Snippet '" + name + "' deleted"
    {
      if name == "" {
        return "❌ No name provided";
      }
      var table := Load(snippetsFile, []);
      if !OrderedDict.HasKey(table, name) {
        return "❌ Snippet '" + name + "' not found";
      }
      OrderedDict.RemoveValid(table, name);
      OrderedDict.RemoveMissing(table, name);
      OrderedDict.RemoveSize(table, name);
      forall other | other != name
        ensures OrderedDict.Find(OrderedDict.Remove(table, name), other) == OrderedDict.Find(table, other)
      {
        OrderedDict.RemoveOther(table, name, other);
      }
      snippetsFile := AfterSave(save, snippetsFile, OrderedDict.Remove(table, name));
      msg := "✅ Snippet '" + name + "' deleted";
    }

    /** `action_snippet`: the operation defaults to "list"; `save` is how a
        write of the snippets file ends. */
    method SnippetAction(operation: Option<string>, name: string, content: string,
                         clipboard: Result<string, string>, tags: seq<string>,
                         tagFilter: string, now: string, save: SaveOutcome) returns (msg: string)
      requires Valid()
      modifies this
      ensures Valid()
      ensures historyFile == old(historyFile)
      ensures operation.GetOr("list") !in ["save", "delete"] ==> snippetsFile == old(snippetsFile)
      ensures operation.GetOr("list") !in ["save", "get", "list", "delete"] ==>
        msg == "❌ Unknown operation: " + operation.GetOr("list") + ". Use: save, get, list, delete"
    {
      var op := operation.GetOr("list");
      if op == "save" {
        msg := SaveSnippet(name, content, clipboard, tags, now, save);
      } else if op == "get" {
        msg := GetSnippet(name);
      } else if op == "list" {
        msg := ListSnippets(tagFilter);
      } else if op == "delete" {
        msg := DeleteSnippet(name, save);
      } else {
        msg := "❌ Unknown operation: " + op + ". Use: save, get, list, delete";
      }
    }
  }
}
