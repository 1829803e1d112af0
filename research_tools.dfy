/** The research helper of server/tools/research_tools.py: the page filter
    over discovered tabs, the per-URL content cache with a five-minute
    lifetime that only ever holds successful reads, pattern matching of tabs
    without duplicates, and the source selection and keyword ranking of the
    compare and fact-check actions. Clocks are integer seconds passed in; the
    one frame read from a tab's socket is an input. */
module ResearchTools {
  import opened Wrappers
  import opened Strings
  import opened JsonValue
  import DevToolsBase

  type Tab = DevToolsBase.Tab

  /** `CACHE_TIMEOUT` */
  const CacheTimeout: int := 300

  /** `get_tabs` keeps the discovered entries whose type is "page". */
  function PagesOnly(entries: seq<Tab>): (r: seq<Tab>)
    ensures |r| <= |entries|
    ensures forall t :: t in r ==> t.kind == "page"
    ensures forall t :: t in entries && t.kind == "page" ==> t in r
    ensures forall t :: t in r ==> t in entries
  {
    if entries == [] then []
    else if entries[0].kind == "page" then [entries[0]] + PagesOnly(entries[1..])
    else PagesOnly(entries[1..])
  }

  /** The filter keeps discovery order: filtering a concatenation filters
      each part. */
  lemma {:induction false} PagesOnlyAppend(a: seq<Tab>, b: seq<Tab>)
    ensures PagesOnly(a + b) == PagesOnly(a) + PagesOnly(b)
  {
    if a != [] {
      assert (a + b)[0] == a[0];
      assert (a + b)[1..] == a[1..] + b;
      PagesOnlyAppend(a[1..], b);
      assert [a[0]] + (PagesOnly(a[1..]) + PagesOnly(b)) == ([a[0]] + PagesOnly(a[1..])) + PagesOnly(b);
    } else {
      assert a + b == b;
    }
  }

  /** A dict `{"error": text}`. */
  function ErrorDict(text: string): Json {
    Single("error", JStr(text))
  }

  /** Text put in place of the message of an exception that Python itself
      raises inside `get_tab_content` (a `.get` on a non-dict, `in` on a
      number). */
  const ShapeError: string := "unexpected response shape"

  /** What reading a tab yields: the connection, send or receive raised with
      the given text, or the next frame arrived and parsed as JSON. */
  datatype Fetch = Raised(reason: string) | Reply(frame: Json)

  /** The content made of one fetch (lines 82-85), before the caching rule;
      `describe` renders a payload as Python's `str()` does. */
  function FetchedContent(fetch: Fetch, describe: Json -> string): Json {
    match fetch
    case Raised(reason) => ErrorDict(reason)
    case Reply(frame) =>
      match HasKey(frame, "error")
      case None => ErrorDict(ShapeError)
      case Some(true) =>
        if frame.JObj? then ErrorDict(describe(frame.fields["error"])) else ErrorDict(ShapeError)
      case Some(false) =>
        if !frame.JObj? then ErrorDict(ShapeError)
        else
          var result := if "result" in frame.fields then frame.fields["result"] else EmptyObj;
          if !result.JObj? then ErrorDict(ShapeError)
          else if "value" in result.fields then result.fields["value"] else EmptyObj
  }

  /** A content is stored only for a non-empty URL and when it has no
      "error" key. */
  predicate Cacheable(url: string, content: Json) {
    url != "" && HasKey(content, "error") == Some(false)
  }

  /** What `get_tab_content` returns after a fetch: `"error" not in content`
      raises for a content that is not a container, and the handler turns
      that into an error dict. */
  function Delivered(url: string, content: Json): Json {
    if url != "" && HasKey(content, "error").None? then ErrorDict(ShapeError) else content
  }

  /** An error dict is never cacheable, so errors are never cached. */
  lemma ErrorsNeverCached(url: string, text: string)
    ensures !Cacheable(url, ErrorDict(text))
  {
  }

  /** Whatever the frame, a fetch that raised or a frame with an "error"
      key yields a result with an "error" key, which is not cached. */
  lemma FailedFetchNotCached(url: string, fetch: Fetch, describe: Json -> string)
    requires fetch.Raised? || (fetch.frame.JObj? && "error" in fetch.frame.fields)
    ensures HasKey(FetchedContent(fetch, describe), "error") == Some(true)
    ensures !Cacheable(url, FetchedContent(fetch, describe))
  {
  }

  /** A successful evaluation is delivered unchanged and cached when the tab
      has a URL. */
  lemma ValueDeliveredAndCached(url: string, value: map<string, Json>, describe: Json -> string)
    requires url != "" && "error" !in value
    ensures var fetched := FetchedContent(Reply(Single("result", Single("value", JObj(value)))), describe);
      fetched == JObj(value) && Cacheable(url, fetched) && Delivered(url, fetched) == fetched
  {
  }

  class ResearchHelper {
    const host: string
    const port: int
    var contentCache: map<string, Json>
    var cacheTimestamps: map<string, int>

    /** Every cached URL is non-empty, has a timestamp, and its content has
        no "error" key. */
    ghost predicate Valid()
      reads this
    {
      && contentCache.Keys == cacheTimestamps.Keys
      && forall u :: u in contentCache ==> Cacheable(u, contentCache[u])
    }

    constructor (host: string, port: int)
      ensures Valid() && contentCache == map[] && cacheTimestamps == map[]
      ensures this.host == host && this.port == port
    {
      this.host := host;
      this.port := port;
      contentCache := map[];
      cacheTimestamps := map[];
    }

    /** A cache entry younger than the timeout at time `now`. */
    predicate Fresh(url: string, now: int)
      reads this
    {
      url in contentCache
      && now - (if url in cacheTimestamps then cacheTimestamps[url] else 0) < CacheTimeout
    }

    /** `get_tab_content` at time `now`. A fresh cache entry is returned
        without connecting; otherwise a tab without a websocket address gives
        an error, and any other tab is read (`fetch`), the result stored with
        timestamp `storedAt` when cacheable, and returned. */
    method GetTabContent(tab: Tab, now: int, storedAt: int, fetch: Fetch, describe: Json -> string)
      returns (content: Json)
      requires Valid()
      modifies this
      ensures Valid()
      ensures old(Fresh(tab.url, now)) ==>
        content == old(contentCache)[tab.url]
        && contentCache == old(contentCache) && cacheTimestamps == old(cacheTimestamps)
      ensures !old(Fresh(tab.url, now)) && tab.webSocketDebuggerUrl == "" ==>
        content == ErrorDict("No WebSocket URL")
        && contentCache == old(contentCache) && cacheTimestamps == old(cacheTimestamps)
      ensures !old(Fresh(tab.url, now)) && tab.webSocketDebuggerUrl != "" ==>
        var fetched := FetchedContent(fetch, describe);
        && content == Delivered(tab.url, fetched)
        && (Cacheable(tab.url, fetched) ==>
              contentCache == old(contentCache)[tab.url := fetched]
              && cacheTimestamps == old(cacheTimestamps)[tab.url := storedAt])
        && (!Cacheable(tab.url, fetched) ==>
              contentCache == old(contentCache) && cacheTimestamps == old(cacheTimestamps))
    {
      var url := tab.url;
      if url in contentCache {
        var age := now - (if url in cacheTimestamps then cacheTimestamps[url] else 0);
        if age < CacheTimeout {
          return contentCache[url];
        }
      }
      if tab.webSocketDebuggerUrl == "" {
        return ErrorDict("No WebSocket URL");
      }
      var fetched := FetchedContent(fetch, describe);
      if url != "" {
        match HasKey(fetched, "error")
        case None =>
          return ErrorDict(ShapeError);
        case Some(hasError) =>
          if !hasError {
            contentCache := contentCache[url := fetched];
            cacheTimestamps := cacheTimestamps[url := storedAt];
          }
      }
      content := fetched;
    }

    /** `find_tabs_by_pattern` over the discovered pages `tabs`: for each
        pattern in turn, each tab in discovery order whose URL or title
        contains it, unless already listed. */
    method FindTabsByPattern(patterns: seq<string>, tabs: seq<Tab>) returns (matched: seq<Tab>)
      ensures matched == MatchedTabs(patterns, tabs)
    {
      matched := [];
      var p := 0;
      while p < |patterns|
        invariant 0 <= p <= |patterns|
        invariant matched == MatchedTabs(patterns[..p], tabs)
      {
        var k := 0;
        ghost var before := matched;
        while k < |tabs|
          invariant 0 <= k <= |tabs|
          invariant matched == AppendNew(before, Matching(tabs[..k], patterns[p]))
        {
          var tab := tabs[k];
          ghost var seen := Matching(tabs[..k], patterns[p]);
          MatchingSnoc(tabs[..k], tab, patterns[p]);
          assert tabs[..k + 1] == tabs[..k] + [tab];
          if MatchesPattern(tab, patterns[p]) {
            AppendNewSnoc(before, seen, tab);
            assert Matching(tabs[..k + 1], patterns[p]) == seen + [tab];
            if tab !in matched {
              matched := matched + [tab];
            }
          } else {
            assert Matching(tabs[..k + 1], patterns[p]) == seen + [];
            assert seen + [] == seen;
          }
          k := k + 1;
        }
        assert tabs[..k] == tabs;
        assert patterns[..p + 1][..p] == patterns[..p];
        p := p + 1;
      }
      assert patterns[..p] == patterns;
    }
  }

  /** `pattern.lower() in url or pattern.lower() in title` */
  predicate MatchesPattern(t: Tab, pattern: string) {
    DevToolsBase.UrlMatches(t, pattern) || DevToolsBase.TitleMatches(t, pattern)
  }

  /** The tabs matching one pattern, in discovery order. */
  function Matching(tabs: seq<Tab>, pattern: string): seq<Tab> {
    if tabs == [] then []
    else Matching(tabs[..|tabs| - 1], pattern) + (if MatchesPattern(tabs[|tabs| - 1], pattern) then [tabs[|tabs| - 1]] else [])
  }

  /** `acc` followed by the elements of `xs` not yet present, in order. */
  function AppendNew(acc: seq<Tab>, xs: seq<Tab>): seq<Tab> {
    if xs == [] then acc
    else
      var front := AppendNew(acc, xs[..|xs| - 1]);
      if xs[|xs| - 1] in front then front else front + [xs[|xs| - 1]]
  }

  /** The specification of `find_tabs_by_pattern`: pattern order first,
      discovery order second, first occurrence kept. */
  function MatchedTabs(patterns: seq<string>, tabs: seq<Tab>): seq<Tab> {
    if patterns == [] then []
    else AppendNew(MatchedTabs(patterns[..|patterns| - 1], tabs), Matching(tabs, patterns[|patterns| - 1]))
  }

  lemma MatchingSnoc(tabs: seq<Tab>, t: Tab, pattern: string)
    ensures Matching(tabs + [t], pattern) == Matching(tabs, pattern) + (if MatchesPattern(t, pattern) then [t] else [])
  {
    assert (tabs + [t])[..|tabs|] == tabs;
  }

  lemma AppendNewSnoc(acc: seq<Tab>, xs: seq<Tab>, x: Tab)
    ensures AppendNew(acc, xs + [x]) == (if x in AppendNew(acc, xs) then AppendNew(acc, xs) else AppendNew(acc, xs) + [x])
  {
    assert (xs + [x])[..|xs|] == xs;
  }

  predicate NoDuplicates(s: seq<Tab>) {
    forall i, j :: 0 <= i < j < |s| ==> s[i] != s[j]
  }

  /** Elements of `Matching` are the matching tabs. */
  lemma {:induction false} MatchingMembers(tabs: seq<Tab>, pattern: string, t: Tab)
    ensures t in Matching(tabs, pattern) <==> t in tabs && MatchesPattern(t, pattern)
    decreases |tabs|
  {
    if tabs != [] {
      var init := tabs[..|tabs| - 1];
      MatchingMembers(init, pattern, t);
      assert tabs == init + [tabs[|tabs| - 1]];
    }
  }

  /** `AppendNew` keeps `acc`'s duplicates-freedom and holds exactly the
      elements of `acc` and `xs`. */
  lemma {:induction false} AppendNewMembers(acc: seq<Tab>, xs: seq<Tab>)
    requires NoDuplicates(acc)
    ensures NoDuplicates(AppendNew(acc, xs))
    ensures forall t :: t in AppendNew(acc, xs) <==> t in acc || t in xs
    ensures |acc| <= |AppendNew(acc, xs)| && AppendNew(acc, xs)[..|acc|] == acc
    decreases |xs|
  {
    if xs != [] {
      var init := xs[..|xs| - 1];
      AppendNewMembers(acc, init);
      assert xs == init + [xs[|xs| - 1]];
      var front := AppendNew(acc, init);
      if xs[|xs| - 1] !in front {
        assert (front + [xs[|xs| - 1]])[..|acc|] == front[..|acc|];
      }
    }
  }

  /** The matched tabs contain no duplicates, and a discovered tab is listed
      exactly when some pattern matches its URL or title. */
  lemma {:induction false} MatchedTabsCorrect(patterns: seq<string>, tabs: seq<Tab>)
    ensures NoDuplicates(MatchedTabs(patterns, tabs))
    ensures forall t :: t in MatchedTabs(patterns, tabs) <==>
      t in tabs && exists p :: p in patterns && MatchesPattern(t, p)
    decreases |patterns|
  {
    if patterns != [] {
      var init := patterns[..|patterns| - 1];
      var last := patterns[|patterns| - 1];
      MatchedTabsCorrect(init, tabs);
      AppendNewMembers(MatchedTabs(init, tabs), Matching(tabs, last));
      forall t
        ensures t in MatchedTabs(patterns, tabs) <==> t in tabs && exists p :: p in patterns && MatchesPattern(t, p)
      {
        MatchingMembers(tabs, last, t);
        assert patterns == init + [last];
        if t in tabs && MatchesPattern(t, last) {
          assert last in patterns;
        }
        if t in tabs && (exists p :: p in patterns && MatchesPattern(t, p)) {
          var p :| p in patterns && MatchesPattern(t, p);
          assert p in init || p == last;
        }
      }
    }
  }

  /** Tabs found for earlier patterns keep their places when a pattern is
      added: the list is ordered by pattern first. */
  lemma MatchedTabsExtends(patterns: seq<string>, p: string, tabs: seq<Tab>)
    ensures var before := MatchedTabs(patterns, tabs);
      var after := MatchedTabs(patterns + [p], tabs);
      |before| <= |after| && after[..|before|] == before
  {
    assert (patterns + [p])[..|patterns|] == patterns;
    MatchedTabsCorrect(patterns, tabs);
    AppendNewMembers(MatchedTabs(patterns, tabs), Matching(tabs, p));
  }

  /** The tabs the compare action reads: the first five discovered pages
      without patterns, else the matched tabs; then at most five of those. */
  function CompareTabs(patterns: seq<string>, pages: seq<Tab>): (r: seq<Tab>)
    ensures |r| <= 5
  {
    var tabs := if patterns == [] then SliceTo(pages, 5) else MatchedTabs(patterns, pages);
    SliceTo(tabs, 5)
  }

  /** The tabs the fact-check action reads: at most ten. */
  function FactCheckTabs(patterns: seq<string>, pages: seq<Tab>): (r: seq<Tab>)
    ensures |r| <= 10
  {
    var tabs := if patterns != [] then MatchedTabs(patterns, pages) else SliceTo(pages, 10);
    SliceTo(tabs, 10)
  }

  /** The compare loop over the contents of the selected tabs: a content with
      an "error" key is skipped; `in` on a content that is not a container,
      `.get` on one that is not a dict, and `[:500]` on a "text" that is
      neither a string nor a list raise, ending the action with an error
      (None). */
  method CompareSources(contents: seq<Json>) returns (sources: Option<seq<Json>>)
    ensures sources == CompareSpec(contents)
  {
    var kept: seq<Json> := [];
    var i := 0;
    assert contents[0..] == contents;
    assert AppendSources([], contents) == CompareSpec(contents) by {
      if CompareSpec(contents).Some? {
        assert [] + CompareSpec(contents).value == CompareSpec(contents).value;
      }
    }
    while i < |contents|
      invariant 0 <= i <= |contents|
      invariant CompareSpec(contents) == AppendSources(kept, contents[i..])
    {
      var c := contents[i];
      CompareStep(kept, contents[i..]);
      assert contents[i..][1..] == contents[i + 1..];
      var hasError := HasKey(c, "error");
      if hasError.None? {
        return None;
      }
      if !hasError.value {
        if !c.JObj? {
          return None;
        }
        if "text" in c.fields && !Sliceable(c.fields["text"]) {
          return None;
        }
        kept := kept + [c];
      }
      i := i + 1;
    }
    assert kept + [] == kept;
    sources := Some(kept);
  }

  /** One iteration of the compare loop on the remaining contents. */
  lemma CompareStep(kept: seq<Json>, rest: seq<Json>)
    requires rest != []
    ensures AppendSources(kept, rest) == match CompareKeeps(rest[0])
      case None => None
      case Some(keep) => AppendSources(if keep then kept + [rest[0]] else kept, rest[1..])
  {
    if CompareKeeps(rest[0]).Some? && CompareSpec(rest[1..]).Some? {
      assert kept + ([rest[0]] + CompareSpec(rest[1..]).value) == (kept + [rest[0]]) + CompareSpec(rest[1..]).value;
    }
  }

  function AppendSources(kept: seq<Json>, rest: seq<Json>): Option<seq<Json>> {
    match CompareSpec(rest)
    case None => None
    case Some(more) => Some(kept + more)
  }

  /** Python's `[:500]` works on a string or a list and raises on the other
      JSON values. */
  predicate Sliceable(x: Json) {
    x.JStr? || x.JArr?
  }

  /** One content of the compare loop: None when the code raises, Some(false)
      when it is skipped for its "error" key, Some(true) when it is reported. */
  function CompareKeeps(content: Json): (r: Option<bool>)
    ensures r == Some(true) <==>
      content.JObj? && "error" !in content.fields
      && ("text" in content.fields ==> Sliceable(content.fields["text"]))
  {
    match HasKey(content, "error")
    case None => None
    case Some(hasError) =>
      if hasError then Some(false)
      else if !content.JObj? then None
      else if "text" in content.fields && !Sliceable(content.fields["text"]) then None
      else Some(true)
  }

  /** The sources compare reports, in order; None when the loop raises. */
  function CompareSpec(contents: seq<Json>): Option<seq<Json>> {
    if contents == [] then Some([])
    else
      match CompareKeeps(contents[0])
      case None => None
      case Some(keep) =>
        match CompareSpec(contents[1..])
        case None => None
        case Some(rest) => Some(if keep then [contents[0]] + rest else rest)
  }

  /** Every reported source is a dict without an "error" key whose text, if
      any, can be previewed, and one of the contents. */
  lemma {:induction false} CompareSourcesClean(contents: seq<Json>)
    requires CompareSpec(contents).Some?
    ensures forall c :: c in CompareSpec(contents).value ==>
      && c.JObj? && "error" !in c.fields
      && ("text" in c.fields ==> Sliceable(c.fields["text"]))
      && c in contents
  {
    if contents != [] {
      CompareSourcesClean(contents[1..]);
    }
  }

  /** The action fails exactly when some content makes the loop raise;
      otherwise every content the loop keeps is reported. */
  lemma {:induction false} CompareFailsIff(contents: seq<Json>)
    ensures CompareSpec(contents).None? <==> exists c :: c in contents && CompareKeeps(c).None?
    ensures CompareSpec(contents).Some? ==>
      forall c :: c in contents && CompareKeeps(c) == Some(true) ==> c in CompareSpec(contents).value
  {
    if contents != [] {
      CompareFailsIff(contents[1..]);
      assert contents == [contents[0]] + contents[1..];
    }
  }

  /** A page read as a bare string, without "error" in it, ends compare with
      the error reply rather than being reported. */
  lemma StringContentFails(text: string)
    requires !Contains(text, "error")
    ensures CompareSpec([JStr(text)]).None?
  {
  }

  /** A matching source: title, URL, and relevance as the fraction
      `count / total` (0 when the claim has no words). */
  datatype Match = Match(title: Json, url: Json, count: nat, total: nat)

  /** Claim words of more than three characters that occur in `text`. */
  function KeywordCount(keywords: seq<string>, text: string): (r: nat)
    ensures r <= |keywords|
  {
    if keywords == [] then 0
    else KeywordCount(keywords[1..], text) + (if Contains(text, keywords[0]) && |keywords[0]| > 3 then 1 else 0)
  }

  /** More text never lowers the count: a text that contains another counts
      at least as many keywords. */
  lemma {:induction false} KeywordCountMonotone(keywords: seq<string>, text: string, larger: string)
    requires Contains(larger, text)
    ensures KeywordCount(keywords, text) <= KeywordCount(keywords, larger)
  {
    if keywords != [] {
      KeywordCountMonotone(keywords[1..], text, larger);
      if Contains(text, keywords[0]) {
        ContainsTrans(larger, text, keywords[0]);
      }
    }
  }

  /** Words of three characters or fewer never count. */
  lemma {:induction false} ShortWordsIgnored(keywords: seq<string>, text: string)
    requires forall k :: 0 <= k < |keywords| ==> |keywords[k]| <= 3
    ensures KeywordCount(keywords, text) == 0
  {
    if keywords != [] {
      ShortWordsIgnored(keywords[1..], text);
    }
  }

  /** The fact-check rule: keep when at least half the claim's words count. */
  predicate Relevant(count: nat, total: nat) {
    count >= total / 2
  }

  /** The fact-check loop over the contents of the selected tabs, with
      `keywords = claim.lower().split()`. A content that is not a dict, or
      whose text is not a string, raises (None). */
  method FactCheckMatches(claim: string, contents: seq<Json>) returns (r: Option<seq<Match>>)
    ensures r == FactCheckSpec(Words(Lower(claim)), contents)
  {
    var keywords := Words(Lower(claim));
    var matches: seq<Match> := [];
    var i := 0;
    assert contents[0..] == contents;
    assert AppendMatches([], keywords, contents) == FactCheckSpec(keywords, contents) by {
      if FactCheckSpec(keywords, contents).Some? {
        assert [] + FactCheckSpec(keywords, contents).value == FactCheckSpec(keywords, contents).value;
      }
    }
    while i < |contents|
      invariant 0 <= i <= |contents|
      invariant FactCheckSpec(keywords, contents) == AppendMatches(matches, keywords, contents[i..])
    {
      var c := contents[i];
      FactCheckStep(matches, keywords, contents[i..]);
      assert contents[i..][1..] == contents[i + 1..];
      match ScoreSource(keywords, c)
      case None =>
        return None;
      case Some(m) =>
        if m.Some? {
          matches := matches + [m.value];
        }
      i := i + 1;
    }
    assert matches + [] == matches;
    r := Some(matches);
  }

  /** One iteration of the fact-check loop on the remaining contents. */
  lemma FactCheckStep(matches: seq<Match>, keywords: seq<string>, rest: seq<Json>)
    requires rest != []
    ensures AppendMatches(matches, keywords, rest) == match ScoreSource(keywords, rest[0])
      case None => None
      case Some(m) => AppendMatches(if m.Some? then matches + [m.value] else matches, keywords, rest[1..])
  {
    var sc := ScoreSource(keywords, rest[0]);
    var tail := FactCheckSpec(keywords, rest[1..]);
    if sc.Some? && tail.Some? {
      if sc.value.Some? {
        assert matches + ([sc.value.value] + tail.value) == (matches + [sc.value.value]) + tail.value;
      } else {
        assert [] + tail.value == tail.value;
      }
    }
  }

  function AppendMatches(matches: seq<Match>, keywords: seq<string>, rest: seq<Json>): Option<seq<Match>> {
    match FactCheckSpec(keywords, rest)
    case None => None
    case Some(more) => Some(matches + more)
  }

  /** `content.get("text", "")` on a dict. */
  function TextField(fields: map<string, Json>): Json {
    if "text" in fields then fields["text"] else JStr("")
  }

  /** One content: None when the code raises, Some(None) when skipped
      (an "error" key, or too few keywords), Some(Some(m)) when kept. */
  function ScoreSource(keywords: seq<string>, content: Json): Option<Option<Match>> {
    match HasKey(content, "error")
    case None => None
    case Some(hasError) =>
      if hasError then Some(None)
      else if !content.JObj? then None
      else
        var text := TextField(content.fields);
        if !text.JStr? then None
        else
          var count := KeywordCount(keywords, Lower(text.s));
          if !Relevant(count, |keywords|) then Some(None)
          else
            var title := if "title" in content.fields then content.fields["title"] else JStr("Untitled");
            var url := if "url" in content.fields then content.fields["url"] else JStr("");
            Some(Some(Match(title, url, count, |keywords|)))
  }

  /** The matches of the fact-check loop, in the order of the contents. */
  function FactCheckSpec(keywords: seq<string>, contents: seq<Json>): Option<seq<Match>> {
    if contents == [] then Some([])
    else
      match ScoreSource(keywords, contents[0])
      case None => None
      case Some(m) =>
        match FactCheckSpec(keywords, contents[1..])
        case None => None
        case Some(rest) => Some((if m.Some? then [m.value] else []) + rest)
  }

  /** `m` was read from the error-free dict `c`: its count is the number of
      claim words in the lowered text of `c`, its title and URL those of `c`. */
  predicate CountedFrom(keywords: seq<string>, c: Json, m: Match) {
    && c.JObj? && "error" !in c.fields && TextField(c.fields).JStr?
    && m.count == KeywordCount(keywords, Lower(TextField(c.fields).s))
    && m.title == (if "title" in c.fields then c.fields["title"] else JStr("Untitled"))
    && m.url == (if "url" in c.fields then c.fields["url"] else JStr(""))
  }

  /** Every kept source passed the half-the-words rule for this claim, its
      relevance is at most 1, and it was read from one of the contents, with
      the count of that content's text. */
  lemma {:induction false} FactCheckKeepsRelevant(keywords: seq<string>, contents: seq<Json>)
    requires FactCheckSpec(keywords, contents).Some?
    ensures forall m :: m in FactCheckSpec(keywords, contents).value ==>
      m.total == |keywords| && Relevant(m.count, m.total) && m.count <= m.total
    ensures forall m :: m in FactCheckSpec(keywords, contents).value ==>
      exists c :: c in contents && CountedFrom(keywords, c, m)
  {
    if contents != [] {
      FactCheckKeepsRelevant(keywords, contents[1..]);
      var sc := ScoreSource(keywords, contents[0]);
      forall m | m in FactCheckSpec(keywords, contents).value
        ensures exists c :: c in contents && CountedFrom(keywords, c, m)
      {
        if sc.value.Some? && m == sc.value.value {
          assert CountedFrom(keywords, contents[0], m);
        } else {
          assert m in FactCheckSpec(keywords, contents[1..]).value;
          var c :| c in contents[1..] && CountedFrom(keywords, c, m);
          assert c in contents;
        }
      }
    }
  }

  /** With a claim of at most one word every error-free text source is kept,
      since half the words rounds down to zero. */
  lemma ShortClaimKeepsAll(keywords: seq<string>, content: map<string, Json>, text: string)
    requires |keywords| <= 1
    requires "error" !in content && ("text" in content ==> content["text"] == JStr(text))
    ensures ScoreSource(keywords, JObj(content)).Some?
    ensures ScoreSource(keywords, JObj(content)).value.Some?
  {
  }

  /** `matches.sort(key=relevance, reverse=True)`: a stable sort by
      decreasing count (all matches share one total, so the order of counts
      is the order of relevances). */
  function SortByRelevance(ms: seq<Match>): (r: seq<Match>)
    ensures |r| == |ms|
  {
    if ms == [] then [] else InsertByRelevance(ms[0], SortByRelevance(ms[1..]))
  }

  /** Place `m` before the first element whose count is not greater. */
  function InsertByRelevance(m: Match, sorted: seq<Match>): (r: seq<Match>)
    ensures |r| == |sorted| + 1
  {
    if sorted == [] || m.count >= sorted[0].count then [m] + sorted
    else [sorted[0]] + InsertByRelevance(m, sorted[1..])
  }

  predicate Descending(s: seq<Match>) {
    forall i, j :: 0 <= i < j < |s| ==> s[i].count >= s[j].count
  }

  /** The matches with a given count, in order. */
  function WithCount(s: seq<Match>, c: nat): seq<Match> {
    if s == [] then [] else (if s[0].count == c then [s[0]] else []) + WithCount(s[1..], c)
  }

  lemma {:induction false} InsertPermutes(m: Match, sorted: seq<Match>)
    ensures multiset(InsertByRelevance(m, sorted)) == multiset(sorted) + multiset{m}
  {
    if sorted != [] && m.count < sorted[0].count {
      InsertPermutes(m, sorted[1..]);
      assert sorted == [sorted[0]] + sorted[1..];
    }
  }

  lemma {:induction false} InsertSorted(m: Match, sorted: seq<Match>)
    requires Descending(sorted)
    ensures Descending(InsertByRelevance(m, sorted))
  {
    if sorted != [] && m.count < sorted[0].count {
      InsertSorted(m, sorted[1..]);
      InsertPermutes(m, sorted[1..]);
      var tail := InsertByRelevance(m, sorted[1..]);
      var r := InsertByRelevance(m, sorted);
      assert r == [sorted[0]] + tail;
      forall j | 0 <= j < |tail|
        ensures sorted[0].count >= tail[j].count
      {
        assert tail[j] in multiset(tail);
        assert tail[j] in multiset(sorted[1..]) || tail[j] == m;
        if tail[j] != m {
          var k :| 0 <= k < |sorted[1..]| && sorted[1..][k] == tail[j];
          assert sorted[k + 1] == tail[j];
        }
      }
    }
  }

  lemma {:induction false} InsertWithCount(m: Match, sorted: seq<Match>, c: nat)
    ensures WithCount(InsertByRelevance(m, sorted), c)
         == (if m.count == c then [m] else []) + WithCount(sorted, c)
  {
    if sorted != [] && m.count < sorted[0].count {
      InsertWithCount(m, sorted[1..], c);
      assert InsertByRelevance(m, sorted)[1..] == InsertByRelevance(m, sorted[1..]);
    } else {
      assert InsertByRelevance(m, sorted)[1..] == sorted;
    }
  }

  /** The ranking is sorted by decreasing relevance, holds the same matches,
      and is stable: matches of equal relevance keep their source order. */
  lemma {:induction false} SortByRelevanceCorrect(ms: seq<Match>)
    ensures Descending(SortByRelevance(ms))
    ensures multiset(SortByRelevance(ms)) == multiset(ms)
    ensures forall c: nat :: WithCount(SortByRelevance(ms), c) == WithCount(ms, c)
  {
    if ms != [] {
      SortByRelevanceCorrect(ms[1..]);
      InsertSorted(ms[0], SortByRelevance(ms[1..]));
      InsertPermutes(ms[0], SortByRelevance(ms[1..]));
      assert ms == [ms[0]] + ms[1..];
      forall c: nat
        ensures WithCount(SortByRelevance(ms), c) == WithCount(ms, c)
      {
        InsertWithCount(ms[0], SortByRelevance(ms[1..]), c);
      }
    }
  }

  /** The sources the fact-check report lists: the five most relevant. */
  function Reported(ms: seq<Match>): (r: seq<Match>)
    ensures |r| <= 5
  {
    SliceTo(SortByRelevance(ms), 5)
  }

  /** No unreported match is more relevant than a reported one. */
  lemma ReportedAreTop(ms: seq<Match>, i: nat, j: nat)
    requires i < |Reported(ms)| && |Reported(ms)| <= j < |ms|
    ensures Reported(ms)[i].count >= SortByRelevance(ms)[j].count
  {
    SortByRelevanceCorrect(ms);
  }
}
