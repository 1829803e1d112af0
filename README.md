# anvil tool server — a Dafny model of its core

anvil is an MCP tool server: a registry maps tool names to handlers, the
server announces the registered tools and dispatches each call by name, and
every tool module turns its arguments into text. This project models the
core of that server in Dafny and proves properties of the model:

- the tool registry (`server/registry.py`): registration, definitions and dispatch;
- the Chrome DevTools Protocol client (`server/tools/devtools_base.py`): tab
  selection, request numbering, waiting for the matching response, script
  evaluation;
- the research helper (`server/tools/research_tools.py`): page filtering,
  the time-limited content cache, tab search by pattern, the compare and
  fact-check loops and the ranking by relevance;
- the browser tool (`server/tools/playwright_tool.py`): the URL safety
  policy, selector kinds and multi-element extraction, and the browser
  session (`server/tools/playwright_session.py`) as a class with launch,
  close and cleanup;
- file search (`server/tools/search_files.py`): binary detection, .gitignore
  parsing and matching, extension filter, content matches, the depth limit
  and the `os.walk` loop with its result cap;
- the clipboard tool (`server/tools/clipboard_tools.py`): the capture
  history, the history listing, the code-to-markdown transform and the
  snippet table (save, get, list, delete);
- the homelab tools (`server/tools/homelab_status.py`,
  `server/tools/homelab_vm.py`): probe results, the `virsh dominfo` parse,
  the container list, the services, the report, and the VM lifecycle gates;
- the git tools (`server/tools/git_status.py`, `server/tools/git_pr.py`):
  the status report with ahead/behind counts, platform detection from the
  remotes, the platform override, and the list and merge commands;
- the email reply (`server/tools/email_reply.py`): argument checks,
  recipients, the "Re: " subject rule and the quoted body.

Shared helper modules: `Wrappers` (Option and Result), `Strings` (the
Python string operations the tools use: `lower` on ASCII, `strip`,
`split`, `join`, `in`, `find`, `startswith`, `endswith`, `int` and `str`),
`JsonValue` (JSON values with Python's `.get`, truthiness and `in`) and
`OrderedDict` (a Python dict with insertion order, shared by the registry
and the snippet table).

Every subprocess, SSH call, socket, browser, mailbox and clock is an
input to the model: a function from the command to what the process
returned (or the message of the exception it raised), a sequence of frames
still to arrive on a socket, a directory tree for `os.walk`, a timestamp
parameter. The clipboard store's two JSON files are held as values that
are either what the file holds or unreadable (a file that exists but does
not parse loads as empty), and each write is given its outcome as a
parameter: written, not opened (the file stays as it was), or failed part
way (the file no longer parses); the error of a failed write is printed
and swallowed. Objects whose fields the source updates in place
(`ToolRegistry`, `DevToolsClient`, `ResearchHelper`, the browser
`Session`, the clipboard store) are classes whose methods state their whole
new state; loops of the source are methods with loop invariants, proved
against a specification function about which the properties are proved
as lemmas.

Three behaviours of the code that the model keeps:

- the request counter of `DevToolsClient` is kept for the life of the
  client and is not reset when it connects to another tab;
- a protocol error carries the error payload only and does not name the
  method (the timeout and "too many messages" failures do);
- the research helper does no keyword extraction, sentiment or credibility
  scoring; the fact-check ranking is by keyword count alone.

## Model

| member | source | states |
|---|---|---|
| Registry.Dispatch | server/registry.py:37-48 | an unknown name fails with "Unknown tool: <name>" exactly when the name is not registered; otherwise the result is the registered handler applied to the arguments |
| Registry.Definitions | server/registry.py:26-35 | one definition per registered tool, in registration order, with its name, description and schema |
| Registry.ToolRegistry.GetToolDefinitions | server/registry.py:26-35 | one definition per registered tool, and a name has a definition exactly when it is registered |
| Registry.ToolRegistry.CallTool | server/registry.py:37-48 | fails with "Unknown tool: <name>" exactly when the name is not registered |
| Registry.DispatchAfterRegister | server/registry.py:18-22 | after registering a name, calls to that name run the new handler (a re-registration replaces the old one) |
| Registry.DispatchOtherUnchanged | server/registry.py:18-22 | registering one name leaves dispatch of every other name unchanged |
| Registry.DefinitionsOnePerName | server/registry.py:26-35 | definitions carry pairwise distinct names, and a name is defined exactly when it is registered |
| Registry.DefinedIffRegistered | server/registry.py:26-35 | a name has a definition exactly when it is registered |
| Registry.ToolRegistry.constructor | server/registry.py:12-13 | a new registry holds no tools |
| Registry.ToolRegistry.Register | server/registry.py:15-24 | the decorator returns the handler unchanged and the table becomes the old table with the entry put under the name |
| Registry.RegisterThenCall | server/registry.py:37-48 | after registration the new name reaches its handler and other names dispatch as before |
| DevToolsBase.FirstMatch | server/tools/devtools_base.py:70-78 | the first tab in discovery order whose URL (or title) contains the pattern, and None exactly when no tab matches |
| DevToolsBase.FindTab | server/tools/devtools_base.py:46-80 | a found tab is one of the discovered tabs; with an index a tab is found exactly when the index is in range |
| DevToolsBase.FindTabByIndex | server/tools/devtools_base.py:65-68 | an index decides alone: the tab at that position, or None when out of range, whatever the URL and title |
| DevToolsBase.FindTabByUrl | server/tools/devtools_base.py:70-73 | with a matching URL pattern the first tab whose URL matches is chosen |
| DevToolsBase.FindTabUrlFallsThrough | server/tools/devtools_base.py:70-78 | a URL pattern that matches nothing falls through to the title search |
| DevToolsBase.FindTabNoneOnlyWhenEmpty | server/tools/devtools_base.py:63-80 | without an index a tab is found exactly when some tab was discovered, and it is one of the discovered tabs |
| DevToolsBase.FindTabByTitle | server/tools/devtools_base.py:70-78 | when no URL pattern matches, a matching title pattern chooses the first tab whose title matches |
| DevToolsBase.FindTabDefault | server/tools/devtools_base.py:70-80 | when neither pattern matches any tab, the first discovered tab is the fallback |
| DevToolsBase.AwaitResponse | server/tools/devtools_base.py:141-156 | the wait consumes no more frames than arrived and no more than the iterations left |
| DevToolsBase.AwaitReturnsMatching | server/tools/devtools_base.py:143-149 | a successful wait returns the result of the first frame carrying the request id, all earlier frames being discarded ones |
| DevToolsBase.AwaitErrorPayload | server/tools/devtools_base.py:145-148 | a matching frame with an "error" field fails with that payload |
| DevToolsBase.AwaitSkips | server/tools/devtools_base.py:144-150 | frames with another id are skipped one by one, each costing one iteration |
| DevToolsBase.TooManyAfterHundredDiscards | server/tools/devtools_base.py:138-156 | a hundred frames with other ids end the wait with "too many messages" naming the command |
| DevToolsBase.OtherIdsNeverAnswer | server/tools/devtools_base.py:141-150 | a returned value always comes from a frame that carries the request's own id |
| DevToolsBase.AwaitFailures | server/tools/devtools_base.py:141-156 | every failure of the wait is a timeout, "too many messages", the error payload of the response, or a malformed frame, and no other kind |
| DevToolsBase.ScriptExceptionRaises | server/tools/devtools_base.py:181-185 | an in-page exception fails with its text, or "Unknown error" when it has none |
| DevToolsBase.ScriptValueReturned | server/tools/devtools_base.py:187 | without exception details the evaluated value is returned unwrapped |
| DevToolsBase.DevToolsClient.constructor | server/tools/devtools_base.py:20-34 | a new client keeps host, port and timeout, is not connected and has sent nothing |
| DevToolsBase.DevToolsClient.ConnectToTab | server/tools/devtools_base.py:82-107 | a tab without a websocket address fails and changes nothing; an open socket is closed first, a refused connection leaves none, an accepted one becomes the socket; the request counter is kept |
| DevToolsBase.DevToolsClient.SendCommand | server/tools/devtools_base.py:109-160 | without a socket it fails with nothing sent; otherwise the counter goes up by one, exactly one request with that id is written, and the result is the wait for that id over the frames still to arrive |
| DevToolsBase.DevToolsClient.ExecuteJs | server/tools/devtools_base.py:162-187 | without a socket it fails with nothing sent and nothing changed; otherwise sends Runtime.evaluate with the expression, consumes the frames the wait read, and returns the evaluated value or the in-page exception |
| DevToolsBase.DevToolsClient.Close | server/tools/devtools_base.py:189-198 | afterwards there is no socket; counter and sent requests are unchanged |
| ResearchTools.PagesOnly | server/tools/research_tools.py:33 | exactly the discovered entries of type "page" are kept |
| ResearchTools.PagesOnlyAppend | server/tools/research_tools.py:33 | the filter keeps discovery order (it distributes over concatenation) |
| ResearchTools.ErrorsNeverCached | server/tools/research_tools.py:88-90 | an error dict is never cached |
| ResearchTools.FailedFetchNotCached | server/tools/research_tools.py:78-97 | a fetch that raised, or a frame carrying "error", yields an error content that is not cached |
| ResearchTools.ValueDeliveredAndCached | server/tools/research_tools.py:85-93 | a successful evaluation is delivered unchanged and cached when the tab has a URL |
| ResearchTools.ResearchHelper.constructor | server/tools/research_tools.py:21-26 | a new helper keeps host and port and starts with an empty cache |
| ResearchTools.ResearchHelper.GetTabContent | server/tools/research_tools.py:37-97 | a fresh cache entry is returned unchanged with the cache untouched; a tab without a websocket address yields the error dict; otherwise the fetched content is returned and stored, with its timestamp, exactly when it is cacheable |
| ResearchTools.ResearchHelper.FindTabsByPattern | server/tools/research_tools.py:99-114 | the loop computes the pattern-by-pattern, duplicate-free list of matching tabs |
| ResearchTools.MatchingMembers | server/tools/research_tools.py:104-110 | a tab matches one pattern exactly when its lowered URL or title contains the lowered pattern |
| ResearchTools.AppendNewMembers | server/tools/research_tools.py:111-112 | appending only new tabs keeps the list duplicate-free, keeps the earlier tabs in place, and holds exactly the old and the new tabs |
| ResearchTools.MatchedTabsCorrect | server/tools/research_tools.py:99-114 | the result has no duplicates and holds exactly the tabs matching some pattern |
| ResearchTools.MatchedTabsExtends | server/tools/research_tools.py:104-112 | tabs found for earlier patterns keep their places when a pattern is added |
| ResearchTools.CompareTabs | server/tools/research_tools.py:120-125 | compare reads at most five tabs |
| ResearchTools.FactCheckTabs | server/tools/research_tools.py:177 | fact-check reads at most ten tabs |
| ResearchTools.CompareSources | server/tools/research_tools.py:136-166 | the compare loop reports, in order, the dict contents without an "error" key, and fails (the error reply) on a content where `in`, `.get` or the 500-character preview raises |
| ResearchTools.CompareSourcesClean | server/tools/research_tools.py:140-150 | every compared source is a dict without an "error" key whose text, if any, can be previewed, and one of the contents read |
| ResearchTools.CompareFailsIff | server/tools/research_tools.py:136-166 | compare fails exactly when some content makes the loop raise; otherwise every content the loop keeps is reported |
| ResearchTools.StringContentFails | server/tools/research_tools.py:140-145 | a content that is a bare string without "error" in it ends compare with the error reply instead of being reported |
| ResearchTools.KeywordCount | server/tools/research_tools.py:200-201 | the keyword count never exceeds the number of claim words |
| ResearchTools.KeywordCountMonotone | server/tools/research_tools.py:201 | a text containing another never counts fewer keywords |
| ResearchTools.ShortWordsIgnored | server/tools/research_tools.py:201 | words of three characters or fewer never count |
| ResearchTools.FactCheckMatches | server/tools/research_tools.py:191-208 | the loop computes, in content order, the sources that pass the half-the-words rule, and raises where the code raises |
| ResearchTools.FactCheckKeepsRelevant | server/tools/research_tools.py:191-208 | every kept source has at least half the claim's words counted, and was read from an error-free dict among the contents, with the keyword count of its lowered text and its title and URL |
| ResearchTools.ShortClaimKeepsAll | server/tools/research_tools.py:203 | with a claim of at most one word every error-free source is kept |
| ResearchTools.SortByRelevance | server/tools/research_tools.py:217 | the ranking has as many entries as the matches |
| ResearchTools.InsertPermutes | server/tools/research_tools.py:217 | one insertion step adds exactly the inserted match |
| ResearchTools.InsertSorted | server/tools/research_tools.py:217 | one insertion step keeps the ranking in decreasing relevance |
| ResearchTools.InsertWithCount | server/tools/research_tools.py:217 | one insertion step keeps equal-relevance matches in their original order |
| ResearchTools.SortByRelevanceCorrect | server/tools/research_tools.py:217 | the ranking is sorted by decreasing relevance, is a permutation of the matches, and is stable |
| ResearchTools.Reported | server/tools/research_tools.py:219 | at most five sources are reported |
| ResearchTools.ReportedAreTop | server/tools/research_tools.py:217-219 | no unreported match is more relevant than a reported one |
| PlaywrightTool.FirstContained | server/tools/playwright_tool.py:40-42 | the first list entry whose lowered form occurs in the domain, and None exactly when none does |
| PlaywrightTool.IsSafeUrl | server/tools/playwright_tool.py:21-56 | the method's loops compute the verdict of the rules in their order: empty location, localhost, blacklist, one-off allowance, whitelist, default |
| PlaywrightTool.ScanLocal | server/tools/playwright_tool.py:34-37 | the loop finds a localhost marker exactly when the domain contains one |
| PlaywrightTool.ScanEntries | server/tools/playwright_tool.py:40-42 | the loop returns the first contained entry |
| PlaywrightTool.EmptyLocationUnsafe | server/tools/playwright_tool.py:30-31 | an empty location is unsafe under every configuration |
| PlaywrightTool.LocalhostBeforeBlacklist | server/tools/playwright_tool.py:34-42 | with localhost allowed a local address is safe even when blacklisted |
| PlaywrightTool.BlacklistBeatsAllowances | server/tools/playwright_tool.py:39-46 | a blacklisted non-local domain is unsafe whatever the one-off allowance and the whitelist |
| PlaywrightTool.AllowanceBeatsWhitelist | server/tools/playwright_tool.py:44-53 | a non-blacklisted domain containing the one-off allowance is safe whatever the whitelist |
| PlaywrightTool.WhitelistDecides | server/tools/playwright_tool.py:48-56 | past the earlier rules, a non-empty whitelist admits exactly the domains containing an entry, and an empty one admits all |
| PlaywrightTool.DefaultPolicyAdmitsAll | server/tools/playwright_tool.py:15-18 | under the fallback configuration every non-empty location is safe |
| PlaywrightTool.XPathByShape | server/tools/playwright_tool.py:206-209 | a selector starting with "//" or "(" is used as XPath whatever its declared type; otherwise only the type "xpath" makes it one |
| PlaywrightTool.KeptValues | server/tools/playwright_tool.py:219-227 | missing and empty values are dropped; no kept value is empty |
| PlaywrightTool.ExtractMultiple | server/tools/playwright_tool.py:211-227 | no element is a failure; otherwise the non-empty values of the first hundred elements, in order |
| PlaywrightTool.ListedItem | server/tools/playwright_tool.py:239 | an item is cut to 200 characters with "..." when longer, and kept whole otherwise |
| PlaywrightTool.Listing | server/tools/playwright_tool.py:238-241 | the first fifty items are listed, each shortened, and the rest are counted |
| PlaywrightTool.ExtractBounds | server/tools/playwright_tool.py:219-241 | at most a hundred values are kept and at most fifty listed |
| PlaywrightSession.SelectLauncher | server/tools/playwright_session.py:35-40 | "firefox" and "webkit" choose their engine and every other name chooses Chromium |
| PlaywrightSession.Session.IsActive | server/tools/playwright_session.py:16-18 | an active session holds a driver, a browser and a page |
| PlaywrightSession.Session.constructor | server/tools/playwright_session.py:10-14 | a new session holds no driver, browser, page or id and is not active |
| PlaywrightSession.Session.GetPage | server/tools/playwright_session.py:101-103 | the page is returned exactly when the session is active |
| PlaywrightSession.Session.Cleanup | server/tools/playwright_session.py:82-99 | handles are closed page, browser, driver and each cleared after closing; a close that raises stops the cleanup, leaving that handle and the later ones set |
| PlaywrightSession.Session.Launch | server/tools/playwright_session.py:20-60 | an active session is refused and left as it was; a launch without a fault makes the session active with the chosen engine, headless flag and id; a launch that raises reports its reason, and its handles are those the cleanup leaves from the state reached when the step raised, also when a close in the cleanup raises |
| PlaywrightSession.Session.Close | server/tools/playwright_session.py:62-80 | an inactive session is a failure and unchanged; an active one is reported closed, and its handles are those the cleanup leaves: none, or, when a close raises, that handle and the later ones kept |
| PlaywrightSession.LaunchThenClose | server/tools/playwright_session.py:20-80 | a launch followed by two closes: the first reports closed, the second "No active session to close", and the session ends inactive |
| SearchFiles.CharLength | server/tools/search_files.py:21-25 | the length of the well-formed UTF-8 sequence at the start of the bytes is at most four and within the bytes |
| SearchFiles.AsciiPrefixDecodes | server/tools/search_files.py:21-25 | an ASCII prefix does not change whether the rest decodes |
| SearchFiles.AsciiIsText | server/tools/search_files.py:12-25 | an ASCII file without NUL bytes is not binary |
| SearchFiles.CutCharacterMakesBinary | server/tools/search_files.py:16-25 | the first 8192 bytes are judged alone: valid UTF-8 whose two-byte character is cut at that boundary counts as binary |
| SearchFiles.NulMakesBinary | server/tools/search_files.py:16-19 | a NUL byte among the first 8192 makes a file binary |
| SearchFiles.IsBinaryFile | server/tools/search_files.py:12-27 | a file that cannot be read counts as binary; a file of at most 8192 bytes is binary exactly when it holds a NUL or is not valid UTF-8 |
| SearchFiles.KeptPatternsCorrect | server/tools/search_files.py:39-43 | every pattern is a non-empty, non-comment stripped line of the file, and every such line gives a pattern |
| SearchFiles.ParseGitignore | server/tools/search_files.py:30-46 | a missing or unreadable file gives None; otherwise the loop keeps the stripped lines that are neither empty nor comments, in order |
| SearchFiles.RStripSlashes | server/tools/search_files.py:60 | removes exactly the trailing "/" characters |
| SearchFiles.Components | server/tools/search_files.py:55 | the path parts kept are non-empty and not "." |
| SearchFiles.Basename | server/tools/search_files.py:65 | the base name holds no "/" |
| SearchFiles.AnyPartMatchesIff | server/tools/search_files.py:61-63 | a directory pattern hits exactly when some path component matches it |
| SearchFiles.ShouldIgnoreIff | server/tools/search_files.py:49-71 | a path is ignored exactly when some pattern hits it as a directory, base-name or full-path pattern; with no patterns nothing is ignored |
| SearchFiles.ShouldIgnore | server/tools/search_files.py:49-71 | no patterns ignore nothing; an ignored path is hit by one of the patterns |
| SearchFiles.DirectoryPatternHitsComponent | server/tools/search_files.py:59-63 | a directory pattern ignores every path with a component matching it with the slash removed |
| SearchFiles.SplitExt | server/tools/search_files.py:79 | stem and extension make up the path, and the extension is empty or a dot followed by neither "." nor "/" |
| SearchFiles.SplitExtTakesLastDot | server/tools/search_files.py:79 | the extension of a final component is taken from its last dot when something other than a dot precedes that dot |
| SearchFiles.SplitExtLeadingDots | server/tools/search_files.py:79 | a final component whose only dots lead it has no extension |
| SearchFiles.MatchesExtensionRule | server/tools/search_files.py:74-80 | "*" in the list admits every file; otherwise a file is admitted exactly when its extension is listed |
| SearchFiles.MatchesExtension | server/tools/search_files.py:74-80 | an empty list admits nothing; an admitted file has a listed extension or the list holds "*" |
| SearchFiles.RStripNewlines | server/tools/search_files.py:105 | removes exactly the trailing line breaks |
| SearchFiles.ContentMatchesSound | server/tools/search_files.py:98-115 | every match names a line holding the text, numbered from 1, with that line's content and the column of the first occurrence |
| SearchFiles.ContentMatchesOrdered | server/tools/search_files.py:98-115 | the matches come in increasing line order |
| SearchFiles.ContentMatchesComplete | server/tools/search_files.py:98-115 | every line holding the text has its match |
| SearchFiles.ContentMatches | server/tools/search_files.py:98-115 | at most one match per line |
| SearchFiles.SearchContentInFile | server/tools/search_files.py:83-119 | an oversized, unreadable or binary file gives no matches; otherwise the loop yields one match per line holding the text |
| SearchFiles.ChildDepth | server/tools/search_files.py:215 | a child directory is one level deeper than its parent, except directly below a root written with a trailing "/" |
| SearchFiles.TrailingSlashUndercounts | server/tools/search_files.py:215 | "src" and "src/" give different depths for the same child |
| SearchFiles.DepthLimitStops | server/tools/search_files.py:216-218 | a directory at the depth limit reports nothing, its own files included |
| SearchFiles.QualifyingAllSound | server/tools/search_files.py:213-270 | every file the walk lists passes the hidden, .gitignore, extension, name and content filters and lies within the depth limit |
| SearchFiles.QualifyingFilesComplete | server/tools/search_files.py:228-270 | every qualifying file of a directory is listed |
| SearchFiles.ConsiderFile | server/tools/search_files.py:233-258 | the file filters are applied, and content matches looked for only when they pass; the file becomes a result exactly when it qualifies |
| SearchFiles.ScanDirectory | server/tools/search_files.py:228-270 | the loop over one directory's files takes the qualifying files in order until the cap, counting every file that passed the filters before it stops, or, while still below the cap, stops at the first qualifying file whose size cannot be read |
| SearchFiles.ScanFile | server/tools/search_files.py:228-270 | one file of the loop: the tally and the counted files advance by exactly that file, or, below the cap, its unreadable size ends the search with "Error during search: " and the error |
| SearchFiles.OutcomeOk | server/tools/search_files.py:276-291 | a capped prefix of the qualifying files gives the report of that prefix, with the count of filtered files looked at |
| SearchFiles.ExaminedWithoutContent | server/tools/search_files.py:251-270 | without a content search the files searched are the results: the first max_results files that pass the filters |
| SearchFiles.ExaminedStops | server/tools/search_files.py:228-274 | a search stopped right after its last result has counted exactly the filtered files it looked at |
| SearchFiles.ExaminedAll | server/tools/search_files.py:228-274 | a search that ends below the cap counts every filtered file |
| SearchFiles.OutcomeErr | server/tools/search_files.py:293-294 | an unreadable size met below the cap gives "Error during search: " with its message, after results for the readable qualifying files before it |
| SearchFiles.SearchFiles | server/tools/search_files.py:180-294 | a missing root is an error; otherwise the result is the report of the first max_results qualifying files in walk order, with `total_files_searched` the number of files that passed the filters up to the one that reached the cap (all of them when it is not reached), or, when a qualifying file before the cap has a size that cannot be read, the error of the first such file, every qualifying file before it being readable |
| SearchFiles.WalkTree | server/tools/search_files.py:213-274 | the os.walk loop takes the qualifying files of the tree in top-down order until the cap, and counts the files that passed the filters on the way; an unreadable size stops it only below the cap |
| SearchFiles.VisitDir | server/tools/search_files.py:213-274 | one pass of the os.walk loop: a directory at or beyond max_depth contributes nothing, otherwise its files are scanned and its kept subdirectories come next, every qualifying and passing file staying accounted for; an unreadable size met below the cap ends the walk with its error |
| SearchFiles.ReportedQualify | server/tools/search_files.py:213-278 | at most max_results files are reported, each passing every filter and within the depth limit, and with a content search each has matches |
| ClipboardTools.Shortened | server/tools/clipboard_tools.py:167 | text within the width is kept, longer text is its first characters followed by "..." |
| ClipboardTools.ShortenedIdempotent | server/tools/clipboard_tools.py:167 | shortening a shortened text again changes nothing |
| ClipboardTools.CapturedShape | server/tools/clipboard_tools.py:162-172 | the newest entry holds the captured content; either nothing changed (same content on top) or the new entry is followed by the old ones cut to 99; the 100-entry bound and the absence of adjacent repeats are preserved |
| ClipboardTools.CaptureTwice | server/tools/clipboard_tools.py:163 | capturing the same content twice in a row is the same as capturing it once |
| ClipboardTools.EntryBlocks | server/tools/clipboard_tools.py:198-204 | three lines per entry shown |
| ClipboardTools.EntryBlocksAt | server/tools/clipboard_tools.py:198-204 | block i of the listing is entry i, numbered i + 1 |
| ClipboardTools.ShowsNewestFirst | server/tools/clipboard_tools.py:198-206 | with a non-negative limit the first min(limit, len) entries are shown, newest first, as the "Showing" line says |
| ClipboardTools.NegativeLimitMiscounts | server/tools/clipboard_tools.py:198-206 | a negative limit lists all but the last entries while the "Showing" line reports the negative limit |
| ClipboardTools.Listed | server/tools/clipboard_tools.py:350-354 | no more snippets are listed than stored |
| ClipboardTools.ListedIff | server/tools/clipboard_tools.py:350-354 | a snippet is listed exactly when it is stored and carries the tag filter (or there is none); without a filter all are listed |
| ClipboardTools.MarkdownRoundTrip | server/tools/clipboard_tools.py:253-256 | the fenced block gives back the language and the content |
| ClipboardTools.CodeToMarkdownReply | server/tools/clipboard_tools.py:215-221 | blank clipboard content is refused |
| ClipboardTools.CodeToMarkdownShown | server/tools/clipboard_tools.py:253-284 | the reply holds the whole fenced block whenever it fits in 500 characters |
| ClipboardTools.Saved | server/tools/clipboard_tools.py:297-320 | a name is required, empty content falls back to the clipboard, blank content is refused; otherwise the snippet is stored under its name with no other entry changed, and the table keeps distinct names |
| ClipboardTools.SavedStores | server/tools/clipboard_tools.py:297-318 | a save that goes through stores the snippet built from the given content, else the clipboard, under its name, and replies with the name and tags |
| ClipboardTools.SaveThenLoad | server/tools/clipboard_tools.py:111-140 | a written file loads as the saved value; a file that could not be opened loads as before; one whose dump failed part way loads as empty |
| ClipboardTools.UnreadableHistoryRestarts | server/tools/clipboard_tools.py:111-119 | with an unreadable history file the next capture leaves a history of that one entry |
| ClipboardTools.UnreadableSnippetsRestart | server/tools/clipboard_tools.py:131-140 | with an unreadable snippets file the next save leaves a table of that one snippet |
| ClipboardTools.ListEntries | server/tools/clipboard_tools.py:198-204 | the loop builds the numbered blocks of the entries shown |
| ClipboardTools.ClipboardStore.constructor | server/tools/clipboard_tools.py:111-140 | with no files there is no history and no snippet |
| ClipboardTools.ClipboardStore.Capture | server/tools/clipboard_tools.py:151-179 | an error or blank clipboard leaves the files as they were, with its message; otherwise the capture of the loaded history (empty when the file is unreadable) is saved, with the outcome of the write, unless the same content is on top; the reply reports its size; the snippets file never changes |
| ClipboardTools.ClipboardStore.ShowHistory | server/tools/clipboard_tools.py:182-212 | an empty loaded history (also an unreadable file) gives its message; otherwise the listing of the first `limit` entries (10 by default) |
| ClipboardTools.ClipboardStore.SaveSnippet | server/tools/clipboard_tools.py:297-320 | the reply is that of Saved on the loaded table; a save that goes through writes Saved's table, with the outcome of the write; a refused save writes nothing; the history file never changes |
| ClipboardTools.ClipboardStore.GetSnippet | server/tools/clipboard_tools.py:322-336 | a missing name or a snippet not in the loaded table gives its message; otherwise the stored content is returned |
| ClipboardTools.ClipboardStore.ListSnippets | server/tools/clipboard_tools.py:338-368 | with no loaded snippets the "No snippets" text; otherwise the header, the blocks of the snippets carrying the filter in table order, and the total of all snippets |
| ClipboardTools.ClipboardStore.DeleteSnippet | server/tools/clipboard_tools.py:370-381 | a missing name or unknown snippet writes nothing; otherwise the loaded table without exactly that snippet, the others keeping their content, is saved with the outcome of the write |
| ClipboardTools.ClipboardStore.SnippetAction | server/tools/clipboard_tools.py:290-387 | the operation defaults to "list"; only save and delete can change the snippets file and none changes the history file; an unknown operation is refused |
| HomelabStatus.SshCommand | server/tools/homelab_status.py:8-25 | success exactly when the process exited with code 0, outputs stripped; a timeout and an exception give their fixed results |
| HomelabStatus.GetHostStatus | server/tools/homelab_status.py:28-51 | each of uptime, CPU, memory and disk is the stripped output of its probe when the ssh process exited with code 0, else "unknown" |
| HomelabStatus.MemoryField | server/tools/homelab_status.py:84-85 | no word raises IndexError, a non-number raises ValueError, otherwise KiB divided by 1024 twice with "GB" |
| HomelabStatus.ParseDominfo | server/tools/homelab_status.py:73-85 | the loop over the dominfo lines computes the fields read in order, or the first exception |
| HomelabStatus.StateUnknownWithoutStateLine | server/tools/homelab_status.py:74-80 | without a "State:" line the state stays "unknown" |
| HomelabStatus.StateFromLastStateLine | server/tools/homelab_status.py:78-80 | the state is the value of the last "State:" line |
| HomelabStatus.NoMemoryLineNoError | server/tools/homelab_status.py:76-85 | without a "Used memory:" line the parse cannot raise and the memory stays "unknown" |
| HomelabStatus.VmEntryIsTheVm | server/tools/homelab_status.py:66-102 | a VM is listed exactly when its dominfo call succeeds, with the IP of its name |
| HomelabStatus.VmsAreTheReachable | server/tools/homelab_status.py:54-104 | when nothing raises, the VMs listed are exactly the reachable configured ones, in order, each with its IP |
| HomelabStatus.GetVmStatus | server/tools/homelab_status.py:54-104 | a failed `virsh list` gives no VMs; otherwise the VMs of the configured names |
| HomelabStatus.CollectVms | server/tools/homelab_status.py:66-102 | the loop over the names computes the specified VM list |
| HomelabStatus.ContainerOf | server/tools/homelab_status.py:115-124 | blank lines and lines with fewer than two fields give no container; a non-blank line with two or more fields gives one, with the first two fields as name and status and the third, or "", as ports |
| HomelabStatus.ContainersOf | server/tools/homelab_status.py:115-124 | at most one container per line |
| HomelabStatus.ContainerOfJoin | server/tools/homelab_status.py:118-124 | two or three fields without "|" read back as the container, ports empty when absent |
| HomelabStatus.ContainerLineRoundTrip | server/tools/homelab_status.py:118-124 | a `name|status|ports` line reads back as that container |
| HomelabStatus.ContainerLineNoPorts | server/tools/homelab_status.py:123 | a `name|status` line reads back with empty ports |
| HomelabStatus.GetContainers | server/tools/homelab_status.py:107-126 | a failed probe gives no containers; otherwise the loop gives the containers of the output lines |
| HomelabStatus.ServiceStatus | server/tools/homelab_status.py:137 | "running" exactly when the probe succeeded with output, otherwise "stopped" |
| HomelabStatus.GetServices | server/tools/homelab_status.py:129-168 | the five services, in order, each with its VM and the status of its probe |
| HomelabStatus.CountIfExtremes | server/tools/homelab_status.py:217-219 | the running count equals the total exactly when all run, and is zero exactly when none does |
| HomelabStatus.PadRight | server/tools/homelab_status.py:195 | left alignment: the text followed by spaces up to the width |
| HomelabStatus.ReportShape | server/tools/homelab_status.py:171-229 | the report starts with the header and host block, lists one line per VM right after it, and ends with the seven summary lines |
| HomelabStatus.ContainerSectionIff | server/tools/homelab_status.py:199-206 | the container section is printed exactly when containers were found |
| HomelabStatus.HomelabStatus | server/tools/homelab_status.py:246-266 | the report of the four probes, or "Error getting homelab status: " with the message of the exception the dominfo parse raised |
| HomelabVm.VmState | server/tools/homelab_vm.py:35-40 | the lowered `domstate` output, or "unknown" when the call fails |
| HomelabVm.StatusIcon | server/tools/homelab_vm.py:115 | the check mark exactly for "running", the cross exactly for "shut off", the pause sign otherwise |
| HomelabVm.StopCommand | server/tools/homelab_vm.py:49-55 | a forced stop is `destroy`, otherwise `shutdown` |
| HomelabVm.ParseAction | server/tools/homelab_vm.py:136-181 | each of the six action names selects its action and any other text none |
| HomelabVm.Gates | server/tools/homelab_vm.py:140-189 | start skips a running VM, stop a shut-off one; restart and suspend need a running VM, resume a paused one; status and unknown actions issue no command |
| HomelabVm.SkipsReported | server/tools/homelab_vm.py:141-152 | starting a running VM or stopping a shut-off one reports it as already so |
| HomelabVm.OneLinePerVm | server/tools/homelab_vm.py:133-189 | every known action gives exactly one line per VM, in order; an unknown action gives none |
| HomelabVm.Targets | server/tools/homelab_vm.py:123-129 | "all" is every configured VM, a configured name is itself, any other name is refused listing the available VMs |
| HomelabVm.ListLinesAt | server/tools/homelab_vm.py:111-117 | the list shows every configured VM, in order, with its icon and state |
| HomelabVm.ListVms | server/tools/homelab_vm.py:111-117 | the loop builds the heading and the list lines |
| HomelabVm.ProcessVms | server/tools/homelab_vm.py:131-191 | the loop builds the specified lines for the VMs processed |
| HomelabVm.HomelabVm | server/tools/homelab_vm.py:100-194 | "list" needs no VM name, every other action requires one, and an unknown VM is refused |
| GitStatus.StatusCommand | server/tools/git_status.py:53-55 | the short status command, with `--untracked-files=no` exactly when untracked files are not wanted |
| GitStatus.CountsSuffix | server/tools/git_status.py:72-79 | no suffix exactly when both counts are "0"; otherwise the bracket names the non-zero sides |
| GitStatus.AheadBehind | server/tools/git_status.py:68-79 | only a successful rev-list printing exactly two tokens contributes a suffix |
| GitStatus.SuffixRoundTrip | server/tools/git_status.py:72-79 | the suffix gives back both counts, a missing side read as "0" |
| GitStatus.Body | server/tools/git_status.py:84-96 | a blank status gives exactly the clean-tree line; otherwise "Changes:" with the status, followed by the legend, which ends the text; it ends with the clean line exactly when the status is blank |
| GitStatus.Report | server/tools/git_status.py:82-96 | exactly the branch line with its suffix and a blank line, then the clean-tree line for a blank status, or "Changes:", the status and the legend otherwise |
| GitStatus.GitStatusTool | server/tools/git_status.py:28-101 | outside a repository the "Not a git repository" error; a raise of the first command gives its "Error getting git status" message |
| GitStatus.LaterRaiseReported | server/tools/git_status.py:43-71 | in a repository, a raise of the branch, status or rev-list command, whichever comes first, is reported as "Error getting git status: " with its message |
| GitStatus.ToolReportsStatus | server/tools/git_status.py:43-96 | when every command runs, the reply is exactly Report of the stripped branch, the ahead/behind suffix and the status output |
| GitPr.FirstGitlabLine | server/tools/git_pr.py:32-33 | the first remote line naming "gitlab" in any case (every earlier line does not), and None exactly when no line does |
| GitPr.HostCorrected | server/tools/git_pr.py:35-42 | the host read from a remote line holds no "/" |
| GitPr.Detect | server/tools/git_pr.py:18-48 | a git failure or a github.com remote gives GitHub; GitLab only with a first remote line naming "gitlab", whose host is returned unless it is the default host; a host is returned only for GitLab |
| GitPr.GitlabLineExists | server/tools/git_pr.py:30-33 | when the lowered output names "gitlab", some line does |
| GitPr.DetectsGitLab | server/tools/git_pr.py:27-45 | GitLab is detected exactly when git ran and the lowered remotes name "gitlab" but not "github.com" |
| GitPr.DetectPlatform | server/tools/git_pr.py:18-48 | a detected host holds no "/" and is never the default host |
| GitPr.CorrectionAgrees | server/tools/git_pr.py:35-42 | where the host read as written holds no "/", the correction does not change it |
| GitPr.SshRemoteHost | server/tools/git_pr.py:35-36 | an SSH remote `user@host:path` gives the host |
| GitPr.CredentialsHostAsWritten | server/tools/git_pr.py:35-36 | an HTTPS remote with credentials gives host and path as written, and the host alone when corrected |
| GitPr.HostAsWritten | server/tools/git_pr.py:35-42 | with an "@" the host holds no ":"; without one it holds no "/", and it is "gitlab.com" when there is no "//" either; the HTTPS host itself is given by HttpsRemoteHost |
| GitPr.HttpsHostPiece | server/tools/git_pr.py:38-40 | the text after "//", cut at the next "//" and then at the first "/", is the host |
| GitPr.HttpsRemoteHost | server/tools/git_pr.py:37-40 | an HTTPS remote without credentials, `pre//host/path`, yields `host`, as written and corrected |
| GitPr.HttpsRemoteDetected | server/tools/git_pr.py:18-48 | a single such remote line naming GitLab, not github.com, is detected as GitLab at `host` unless that is "gitlab.com", as written and corrected |
| GitPr.DetectAsWritten | server/tools/git_pr.py:18-48 | the same platform as the corrected detection; a host is given only for GitLab and never "gitlab.com" |
| GitPr.DetectByFirstLine | server/tools/git_pr.py:18-48 | without a GitLab line the platform is GitHub with no host; with one, GitLab with the host read from that line unless it is "gitlab.com" |
| GitPr.AsWrittenDiffersOnlyOnSlash | server/tools/git_pr.py:18-48 | the as-written and corrected detections differ only when the host read as written holds a "/" |
| GitPr.OneGitlabLine | server/tools/git_pr.py:27-45 | a single GitLab remote line decides the platform and host |
| GitPr.CredentialsRemoteDetected | server/tools/git_pr.py:35-45 | for an HTTPS remote with credentials the code as written detects host plus path; the corrected detection gives the host |
| GitPr.PlatformOf | server/tools/git_pr.py:213-219 | "github" selects GitHub and anything else GitLab |
| GitPr.Resolve | server/tools/git_pr.py:114-118 | an explicit platform is kept; with "auto" the platform is detected (with the corrected host reading) and a given host wins over the detected one |
| GitPr.GitlabHostEnv | server/tools/git_pr.py:227-228 | GITLAB_HOST is set only on GitLab and only to a non-empty host |
| GitPr.StateArgs | server/tools/git_pr.py:215-224 | no state flags exactly for "all"; GitLab reads "open" as "opened" |
| GitPr.StateArgsDistinguish | server/tools/git_pr.py:215-224 | different states give different flags, except GitLab's "open" and "opened" |
| GitPr.ListCommand | server/tools/git_pr.py:213-226 | the gh or glab list command with the limit, the state flags and the author in their places |
| GitPr.MethodArgs | server/tools/git_pr.py:369-382 | squash and rebase get their flag; GitHub otherwise merges with `--merge`, GitLab with no flag |
| GitPr.MethodArgsRoundTrip | server/tools/git_pr.py:369-382 | the flags give back each of the three merge methods |
| GitPr.MergeCommand | server/tools/git_pr.py:366-386 | the gh or glab merge command with the number, the method flags and the branch-deletion flag in their places |
| EmailReply.BaseSubject | server/tools/email_reply.py:90 | an empty subject becomes "(No Subject)" and any other is kept |
| EmailReply.ReplySubject | server/tools/email_reply.py:91-92 | the result starts with "re:" in any case and ends with the subject; it is the subject itself exactly when that already starts so, and otherwise "Re: " followed by the subject |
| EmailReply.ReplySubjectIdempotent | server/tools/email_reply.py:91-92 | replying to a reply does not add a second prefix |
| EmailReply.Subject | server/tools/email_reply.py:90-92 | "Re: (No Subject)" for an empty subject; a subject already starting with "re:" is kept; any other is prefixed by "Re: " |
| EmailReply.Recipients | server/tools/email_reply.py:83-87 | the sender is the only recipient; CC is the original's exactly for reply-all with a non-empty CC |
| EmailReply.QuotedLines | server/tools/email_reply.py:103 | each line with "> " in front |
| EmailReply.QuoteIsJoinOfQuoted | server/tools/email_reply.py:103 | the joined form equals the quoted lines joined by line breaks |
| EmailReply.QuoteLines | server/tools/email_reply.py:103 | the quote has one line per original line, each prefixed by "> " |
| EmailReply.QuoteRoundTrip | server/tools/email_reply.py:103 | removing the prefixes gives the original text back |
| EmailReply.Quote | server/tools/email_reply.py:103 | the quote starts with "> " |
| EmailReply.ReplyBody | server/tools/email_reply.py:95-103 | the body starts with the new text and ends with the quote (plain) or the original's HTML, else its text (HTML) |
| EmailReply.Reply | server/tools/email_reply.py:83-113 | the reply goes to the sender with the computed CC, the subject is Subject of the original, and the body starts with the new text |
| EmailReply.EmailReplyTool | server/tools/email_reply.py:63-78 | a missing UID, then a missing body, are refused before the mailbox is touched; no message with the UID gives "not found" |
| EmailReply.RepliesToFirstFetched | server/tools/email_reply.py:80-126 | with valid arguments the reply to the first fetched message is sent and the confirmation or failure is reported |
| EmailReply.Confirmation | server/tools/email_reply.py:116-123 | the success text starts with the header and the "To:" line of the recipients, and ends with the "Subject:" and "In reply to UID:" lines |

## Reference definitions

The "states" column above is written in terms of functions that define,
independently of the methods and loops, what the source computes:

- Registry: `OrderedDict.Put`, `Remove`, `Find` and `Keys` (the tool table as an insertion-ordered dict).
- DevToolsBase: `UrlMatches`, `TitleMatches` (the pattern tests of `find_tab`), `AwaitResponse`, `IsResponseTo`, `Answer` (the receive loop of `send_command`), `ScriptOutcome` (the exception check of `execute_js`).
- ResearchTools: `Matching`, `MatchedTabs` (tab search), `CompareKeeps`, `CompareSpec` (compare), `Relevant`, `ScoreSource`, `FactCheckSpec` (fact check), `InsertByRelevance`, `Descending` (the relevance sort).
- PlaywrightTool: `SafetyVerdict` (the URL policy rules in order), `IsLocal`, `IsXPath`, `LocatorFor`.
- PlaywrightSession: `Cleaned`, `RaisedAt` (the handles left by a cleanup that stops at a raise).
- SearchFiles: `ValidUtf8`, `KeptPatterns`, `PatternHits`, `SplitExt`, `LineMatches`, `Depth`, `Qualifies`, `QualifyingAll`, `PassingAll`, `Examined`, `SearchOutcome` (the walk and its report).
- ClipboardTools: `Captured`, `HistoryLines`, `EntryBlock`, `Listing`, `SnippetBlocks`, `Saved`, `CodeToMarkdown`, `FromMarkdown`, `Load`, `AfterSave`.
- HomelabStatus: `ScanDominfo`, `ApplyLine`, `VmEntry`, `VmsFrom`, `ContainerLine`, `HostLines`, `VmLine`, `ServiceLine`, `SummaryLines`, `ReportLines` (the report's lines).
- HomelabVm: `Step`, `AllLines` (the per-VM action lines), `ListLine`, `ListLines` (the list action).
- GitStatus: `ParseSuffix` (the inverse of `CountsSuffix`), `Report`.
- GitPr: `FirstGitlabLine`, `GitlabRemote`, `Detect`, `MethodOfArgs` (the inverse of `MethodArgs`).
- EmailReply: `IsReply`, `Unquote` (the inverse of `Quote`), `Subject`, `Recipients`.
- Strings and JsonValue: the Python string operations and `.get`, truthiness and `in` on JSON values that all of these use.

## Left out

- Transports and I/O: the MCP server loop, stdio, HTTP tab discovery, the
  websocket library, subprocess, SSH, IMAP/SMTP, Playwright and the file
  system are inputs to the model, not modelled; so are clocks, which are
  integer parameters.
- `ToolRegistry.load_tools`: dynamic module import and its log lines.
- Logging and `print` to standard error in every module.
- Floating point: the research relevance is kept as the keyword count,
  which orders matches as the fraction does for one claim; the percentage
  text and `search_time_seconds` are not modelled.
- Research helper: the timeline and references actions and the report
  texts of compare and fact-check beyond the selected and ranked sources.
- Browser tool: navigation, clicking, typing, screenshots and the other
  page actions; only the URL policy, the selector kind and multi-element
  extraction are modelled.
- Clipboard: reading and writing the system clipboard (an input), the
  tool's dispatch on `action` (lines 440-457 of
  `server/tools/clipboard_tools.py`), and the json_to_csv, csv_to_json,
  markdown_to_html and base64 transforms, which rely on library
  parsers and encoders.
- Clipboard files: a file that parses but holds JSON of another shape
  than a list of entries or a table of snippets; the model's files hold
  such a value or are unreadable.
- git_pr: the create, view and checkout commands, output parsing, and
  `_get_env`.
- Email reply: date formatting with `strftime` (the date is an input
  string), attachments, and how `send_email` builds the message.
- Python `int()` accepting underscores and surrounding whitespace in more
  forms than the model's digit parser; `lower()` is modelled on ASCII only.
- JSON serialisation of the search report (`json.dumps(..., indent=2)`):
  the report is modelled as its fields.
- PlaywrightTool.ExtractMultiple: the error message for no elements is
  stated only as a failure, not its text.
- ClipboardTools.CodeToMarkdownReply: its own contract states the refusal
  of blank content only; what a non-blank reply shows is stated by
  CodeToMarkdownShown.
- ClipboardTools.ClipboardStore.SnippetAction: states the default
  operation, which operations change the table and the refusal of unknown
  ones; the result of each operation is stated by the method it calls.
- EmailReply.EmailReplyTool: states the refusals and "not found"; the
  sent reply and its report are stated by RepliesToFirstFetched.
- HomelabVm.HomelabVm: the lines of each action are stated by
  ProcessVms and OneLinePerVm, not repeated in its own contract.
- GitPr.Resolve: with "auto" it uses the corrected detection
  (GitPr.DetectPlatform, see Findings), so for an HTTPS GitLab remote with
  credentials it yields the host alone, where the code as written at
  `server/tools/git_pr.py:114-118` yields the host followed by the path
  (GitPr.DetectAsWritten).

## Findings

| source | as written | input that shows it | evidently intended | confidence | as-written member | corrected member |
|---|---|---|---|---|---|---|
| server/tools/git_pr.py:35-36 | any remote line holding "@" is read as SSH: the host is the text between "@" and the next ":", so an HTTPS remote with credentials yields the host followed by the repository path | `origin	https://me@gitlab.example.org/team/app.git (fetch)` detected as GitLab at host `gitlab.example.org/team/app.git (fetch)` | the host `gitlab.example.org` | not executed | GitPr.CredentialsRemoteDetected | GitPr.DetectPlatform |
