/** The Chrome DevTools Protocol client of server/tools/devtools_base.py:
    choosing a tab from the discovered list, numbering the requests of one
    client, waiting for the response that carries the request's id, turning
    error payloads and script exceptions into failures, and closing. The
    websocket is modelled by the frames it will deliver. */
module DevToolsBase {
  import opened Wrappers
  import opened Strings
  import opened JsonValue

  /** A tab as discovery lists it. Missing `url` and `title` read as "" (the
      code's `tab.get(key, "")`); a missing `webSocketDebuggerUrl` is "". */
  datatype Tab = Tab(id: string, kind: string, title: string, url: string, webSocketDebuggerUrl: string)

  predicate UrlMatches(t: Tab, pattern: string) {
    Contains(Lower(t.url), Lower(pattern))
  }

  predicate TitleMatches(t: Tab, pattern: string) {
    Contains(Lower(t.title), Lower(pattern))
  }

  predicate MatchesOn(t: Tab, pattern: string, onTitle: bool) {
    if onTitle then TitleMatches(t, pattern) else UrlMatches(t, pattern)
  }

  /** The position of the first tab, in discovery order, whose URL (or title)
      contains `pattern` case-insensitively. */
  function FirstMatch(tabs: seq<Tab>, pattern: string, onTitle: bool): (r: Option<nat>)
    ensures r.Some? ==> r.value < |tabs| && MatchesOn(tabs[r.value], pattern, onTitle)
    ensures r.Some? ==> forall j :: 0 <= j < r.value ==> !MatchesOn(tabs[j], pattern, onTitle)
    ensures r.None? <==> forall j :: 0 <= j < |tabs| ==> !MatchesOn(tabs[j], pattern, onTitle)
  {
    if tabs == [] then None
    else if MatchesOn(tabs[0], pattern, onTitle) then Some(0)
    else
      match FirstMatch(tabs[1..], pattern, onTitle)
      case None => None
      case Some(i) => Some(i + 1)
  }

  /** Python truthiness of an optional string argument. */
  predicate Given(s: Option<string>) {
    s.Some? && s.value != ""
  }

  /** `find_tab(url, title, index)` over the discovered `tabs`. */
  function FindTab(tabs: seq<Tab>, url: Option<string>, title: Option<string>, index: Option<int>): (r: Option<Tab>)
    ensures r.Some? ==> r.value in tabs
    ensures index.Some? ==> (r.Some? <==> 0 <= index.value < |tabs|)
  {
    if index.Some? then
      (if 0 <= index.value < |tabs| then Some(tabs[index.value]) else None)
    else if Given(url) && FirstMatch(tabs, url.value, false).Some? then
      Some(tabs[FirstMatch(tabs, url.value, false).value])
    else if Given(title) && FirstMatch(tabs, title.value, true).Some? then
      Some(tabs[FirstMatch(tabs, title.value, true).value])
    else if tabs != [] then Some(tabs[0])
    else None
  }

  /** An index decides alone: the tab at that position or nothing, whatever
      the patterns say. */
  lemma FindTabByIndex(tabs: seq<Tab>, url: Option<string>, title: Option<string>, i: int)
    ensures FindTab(tabs, url, title, Some(i)) == (if 0 <= i < |tabs| then Some(tabs[i]) else None)
    ensures FindTab(tabs, url, title, Some(i)) == FindTab(tabs, None, None, Some(i))
  {
  }

  /** With a URL pattern that matches, the result is the first matching tab. */
  lemma FindTabByUrl(tabs: seq<Tab>, url: string, title: Option<string>, k: nat)
    requires url != ""
    requires k < |tabs| && UrlMatches(tabs[k], url)
    requires forall j :: 0 <= j < k ==> !UrlMatches(tabs[j], url)
    ensures FindTab(tabs, Some(url), title, None) == Some(tabs[k])
  {
    var m := FirstMatch(tabs, url, false);
    assert m.Some?;
    assert m.value == k by {
      assert !(m.value < k);
      assert !(k < m.value);
    }
  }

  /** A URL pattern that matches nothing falls through to the title search. */
  lemma FindTabUrlFallsThrough(tabs: seq<Tab>, url: string, title: Option<string>)
    requires forall j :: 0 <= j < |tabs| ==> !UrlMatches(tabs[j], url)
    ensures FindTab(tabs, Some(url), title, None) == FindTab(tabs, None, title, None)
  {
    assert FirstMatch(tabs, url, false).None?;
  }

  /** With no URL match, a title pattern that matches gives the first tab
      whose title matches. */
  lemma FindTabByTitle(tabs: seq<Tab>, url: Option<string>, title: string, k: nat)
    requires Given(url) ==> forall j :: 0 <= j < |tabs| ==> !UrlMatches(tabs[j], url.value)
    requires title != ""
    requires k < |tabs| && TitleMatches(tabs[k], title)
    requires forall j :: 0 <= j < k ==> !TitleMatches(tabs[j], title)
    ensures FindTab(tabs, url, Some(title), None) == Some(tabs[k])
  {
    if Given(url) {
      assert FirstMatch(tabs, url.value, false).None?;
    }
    var m := FirstMatch(tabs, title, true);
    assert m.Some?;
    assert m.value == k by {
      assert !(m.value < k);
      assert !(k < m.value);
    }
  }

  /** When neither pattern matches any tab, the first discovered tab is the
      fallback. */
  lemma FindTabDefault(tabs: seq<Tab>, url: Option<string>, title: Option<string>)
    requires tabs != []
    requires Given(url) ==> forall j :: 0 <= j < |tabs| ==> !UrlMatches(tabs[j], url.value)
    requires Given(title) ==> forall j :: 0 <= j < |tabs| ==> !TitleMatches(tabs[j], title.value)
    ensures FindTab(tabs, url, title, None) == Some(tabs[0])
  {
    if Given(url) {
      assert FirstMatch(tabs, url.value, false).None?;
    }
    if Given(title) {
      assert FirstMatch(tabs, title.value, true).None?;
    }
  }

  /** Without an index the result is None only when no tab was discovered;
      any result is one of the discovered tabs. */
  lemma FindTabNoneOnlyWhenEmpty(tabs: seq<Tab>, url: Option<string>, title: Option<string>)
    ensures FindTab(tabs, url, title, None).None? <==> tabs == []
    ensures FindTab(tabs, url, title, None).Some? ==> FindTab(tabs, url, title, None).value in tabs
  {
  }

  /** Requests of one client are numbered from 1 upwards. */
  datatype Request = Request(id: int, command: string, params: Json)

  /** What one receive on the socket yields: a text frame, a frame that is not
      valid JSON, or a timeout (`WebSocketTimeoutException`). */
  datatype Frame = Message(text: Json) | Unparsable | RecvTimeout

  /** A connected websocket: its address and the frames still to arrive. */
  datatype Socket = Socket(url: string, incoming: seq<Frame>)

  /** How an attempt to open a websocket ends. */
  datatype ConnectAttempt = Refused | Accepted(frames: seq<Frame>)

  datatype Failure =
    | NotConnected                    // "Not connected to any tab..."
    | NoWebSocketUrl                  // "Tab does not have WebSocket URL"
    | ConnectFailed                   // "Failed to connect WebSocket: ..."
    | ProtocolError(payload: Json)    // "DevTools error: {error}"
    | ResponseTimeout(command: string) // "Timeout waiting for DevTools response to {command}"
    | TooManyMessages(command: string) // "Too many messages received without matching ID for {command}"
    | MalformedResponse               // json.loads or a `.get` on a non-dict raised
    | ScriptError(text: Json)         // "JavaScript error: {text}"

  const MaxIterations: nat := 100

  /** `params or {}` */
  function ParamsOrEmpty(params: Json): Json {
    if Truthy(params) then params else EmptyObj
  }

  /** The outcome of waiting for the response to request `id`, and how many
      receives that took. */
  datatype Await = Await(outcome: Result<Json, Failure>, consumed: nat)

  /** Receive frames until one carries `id`; `discarded` frames have already
      been thrown away. This is the specification of the loop in SendCommand. */
  function AwaitResponse(frames: seq<Frame>, id: int, command: string, discarded: nat): (r: Await)
    requires discarded <= MaxIterations
    ensures r.consumed <= |frames| && r.consumed <= MaxIterations - discarded
    decreases MaxIterations - discarded
  {
    if discarded == MaxIterations then Await(Err(TooManyMessages(command)), 0)
    else if frames == [] then Await(Err(ResponseTimeout(command)), 0)
    else
      match frames[0]
      case RecvTimeout => Await(Err(ResponseTimeout(command)), 1)
      case Unparsable => Await(Err(MalformedResponse), 1)
      case Message(body) =>
        if !body.JObj? then Await(Err(MalformedResponse), 1)
        else if IsResponseTo(body, id) then Await(Answer(body), 1)
        else
          var rest := AwaitResponse(frames[1..], id, command, discarded + 1);
          Await(rest.outcome, rest.consumed + 1)
  }

  /** `response.get("id") == self.message_id` */
  predicate IsResponseTo(body: Json, id: int)
    requires body.JObj?
  {
    "id" in body.fields && body.fields["id"] == JInt(id)
  }

  /** A matching response: its error payload raised, or its `result` (default {}). */
  function Answer(body: Json): Result<Json, Failure>
    requires body.JObj?
  {
    if "error" in body.fields then Err(ProtocolError(body.fields["error"]))
    else Ok(if "result" in body.fields then body.fields["result"] else EmptyObj)
  }

  /** A frame that the loop throws away: a dict whose id is not `id`. */
  predicate Discarded(f: Frame, id: int) {
    f.Message? && f.text.JObj? && !IsResponseTo(f.text, id)
  }

  /** A successful wait returns the result of the first frame carrying `id`;
      every frame before it carried another id or none. */
  lemma {:induction false} AwaitReturnsMatching(frames: seq<Frame>, id: int, command: string, discarded: nat)
    requires discarded <= MaxIterations
    requires AwaitResponse(frames, id, command, discarded).outcome.Ok?
    ensures var a := AwaitResponse(frames, id, command, discarded);
      && 1 <= a.consumed <= |frames|
      && discarded + a.consumed <= MaxIterations
      && frames[a.consumed - 1].Message?
      && frames[a.consumed - 1].text.JObj?
      && IsResponseTo(frames[a.consumed - 1].text, id)
      && !("error" in frames[a.consumed - 1].text.fields)
      && a.outcome == Answer(frames[a.consumed - 1].text)
      && forall j :: 0 <= j < a.consumed - 1 ==> Discarded(frames[j], id)
    decreases MaxIterations - discarded
  {
    var f := frames[0];
    if f.Message? && f.text.JObj? && !IsResponseTo(f.text, id) {
      AwaitReturnsMatching(frames[1..], id, command, discarded + 1);
    }
  }

  /** A matching frame that carries an error payload fails with that payload. */
  lemma {:induction false} AwaitErrorPayload(frames: seq<Frame>, id: int, command: string, k: nat)
    requires k < |frames| && k < MaxIterations
    requires forall j :: 0 <= j < k ==> Discarded(frames[j], id)
    requires frames[k].Message? && frames[k].text.JObj? && IsResponseTo(frames[k].text, id)
    requires "error" in frames[k].text.fields
    ensures AwaitResponse(frames, id, command, 0).outcome == Err(ProtocolError(frames[k].text.fields["error"]))
  {
    AwaitSkips(frames, id, command, k, 0);
  }

  /** Discarded frames are skipped one by one, each costing one iteration. */
  lemma {:induction false} AwaitSkips(frames: seq<Frame>, id: int, command: string, k: nat, discarded: nat)
    requires k <= |frames| && discarded + k <= MaxIterations
    requires forall j :: 0 <= j < k ==> Discarded(frames[j], id)
    ensures AwaitResponse(frames, id, command, discarded).outcome
         == AwaitResponse(frames[k..], id, command, discarded + k).outcome
    decreases k
  {
    if k > 0 {
      AwaitSkips(frames[1..], id, command, k - 1, discarded + 1);
      assert frames[1..][k - 1..] == frames[k..];
    }
  }

  /** A hundred frames with other ids end the wait with "too many messages". */
  lemma TooManyAfterHundredDiscards(frames: seq<Frame>, id: int, command: string)
    requires |frames| >= MaxIterations
    requires forall j :: 0 <= j < MaxIterations ==> Discarded(frames[j], id)
    ensures AwaitResponse(frames, id, command, 0).outcome == Err(TooManyMessages(command))
  {
    AwaitSkips(frames, id, command, MaxIterations, 0);
  }

  /** Frames that answer other requests never supply this request's result:
      responses delivered out of order are told apart by id. */
  lemma {:induction false} OtherIdsNeverAnswer(frames: seq<Frame>, id: int, command: string, discarded: nat, v: Json)
    requires discarded <= MaxIterations
    requires AwaitResponse(frames, id, command, discarded).outcome == Ok(v)
    ensures exists k :: (0 <= k < |frames| && frames[k].Message? && frames[k].text.JObj?
                         && IsResponseTo(frames[k].text, id) && Answer(frames[k].text) == Ok(v))
  {
    AwaitReturnsMatching(frames, id, command, discarded);
    var a := AwaitResponse(frames, id, command, discarded);
    var k := a.consumed - 1;
    assert frames[k].Message? && frames[k].text.JObj? && IsResponseTo(frames[k].text, id);
  }

  /** Every failure of a wait is a timeout, "too many messages" (both naming
      the command), an error payload, or a malformed frame. */
  lemma {:induction false} AwaitFailures(frames: seq<Frame>, id: int, command: string, discarded: nat)
    requires discarded <= MaxIterations
    ensures var o := AwaitResponse(frames, id, command, discarded).outcome;
      o.Err? ==> o.error in {ResponseTimeout(command), TooManyMessages(command), MalformedResponse}
                 || o.error.ProtocolError?
    decreases MaxIterations - discarded
  {
    if discarded < MaxIterations && frames != [] && Discarded(frames[0], id) {
      AwaitFailures(frames[1..], id, command, discarded + 1);
    }
  }

  /** What `execute_js` makes of the `result` of Runtime.evaluate: a truthy
      `exceptionDetails` raises with its `text` (default "Unknown error"),
      otherwise the value is `result.result.value` (default null). */
  function ScriptOutcome(result: Json): Result<Json, Failure> {
    if !result.JObj? then Err(MalformedResponse)
    else
      var details := if "exceptionDetails" in result.fields then result.fields["exceptionDetails"] else JNull;
      if Truthy(details) then
        if !details.JObj? then Err(MalformedResponse)
        else Err(ScriptError(if "text" in details.fields then details.fields["text"] else JStr("Unknown error")))
      else
        var inner := if "result" in result.fields then result.fields["result"] else EmptyObj;
        if !inner.JObj? then Err(MalformedResponse)
        else Ok(if "value" in inner.fields then inner.fields["value"] else JNull)
  }

  /** An in-page exception fails with its display text, or "Unknown error". */
  lemma ScriptExceptionRaises(result: Json, details: map<string, Json>)
    requires result.JObj? && "exceptionDetails" in result.fields
    requires result.fields["exceptionDetails"] == JObj(details) && details != map[]
    ensures "text" in details ==> ScriptOutcome(result) == Err(ScriptError(details["text"]))
    ensures "text" !in details ==> ScriptOutcome(result) == Err(ScriptError(JStr("Unknown error")))
  {
  }

  /** Without exception details the evaluated value is returned unwrapped. */
  lemma ScriptValueReturned(result: Json, inner: map<string, Json>, v: Json)
    requires result.JObj? && "exceptionDetails" !in result.fields
    requires "result" in result.fields && result.fields["result"] == JObj(inner)
    requires "value" in inner && inner["value"] == v
    ensures ScriptOutcome(result) == Ok(v)
  {
  }

  /** The fields of `DevToolsClient`. `Sent` records every request written to
      a socket by this client, in order. */
  class DevToolsClient {
    const host: string
    const port: int
    const timeout: int
    var ws: Option<Socket>
    var messageId: int
    ghost var Sent: seq<Request>

    /** Requests are numbered 1, 2, 3, ... and `messageId` is the last number used. */
    ghost predicate Valid()
      reads this
    {
      && messageId == |Sent|
      && forall i :: 0 <= i < |Sent| ==> Sent[i].id == i + 1
    }

    constructor (host: string, port: int, timeout: int)
      ensures Valid()
      ensures this.host == host && this.port == port && this.timeout == timeout
      ensures ws.None? && messageId == 0 && Sent == []
    {
      this.host := host;
      this.port := port;
      this.timeout := timeout;
      ws := None;
      messageId := 0;
      Sent := [];
    }

    /** `connect_to_tab`: a tab without a websocket address fails and nothing
        changes; otherwise any open socket is closed first, then the attempt
        either connects or leaves the client disconnected. */
    method ConnectToTab(tab: Tab, attempt: ConnectAttempt) returns (r: Result<(), Failure>)
      requires Valid()
      modifies this
      ensures Valid()
      ensures messageId == old(messageId) && Sent == old(Sent)
      ensures tab.webSocketDebuggerUrl == "" ==> r == Err(NoWebSocketUrl) && ws == old(ws)
      ensures tab.webSocketDebuggerUrl != "" && attempt.Refused? ==> r == Err(ConnectFailed) && ws.None?
      ensures tab.webSocketDebuggerUrl != "" && attempt.Accepted? ==>
        r == Ok(()) && ws == Some(Socket(tab.webSocketDebuggerUrl, attempt.frames))
    {
      if tab.webSocketDebuggerUrl == "" {
        return Err(NoWebSocketUrl);
      }
      if ws.Some? {
        Close();
      }
      match attempt
      case Refused =>
        r := Err(ConnectFailed);
      case Accepted(frames) =>
        ws := Some(Socket(tab.webSocketDebuggerUrl, frames));
        r := Ok(());
    }

    /** `send_command`: number the request, write it, and read frames until
        the one carrying its id, at most MaxIterations discarded. */
    method SendCommand(command: string, params: Json) returns (r: Result<Json, Failure>)
      requires Valid()
      modifies this
      ensures Valid()
      ensures old(ws).None? ==>
        r == Err(NotConnected) && ws == old(ws) && messageId == old(messageId) && Sent == old(Sent)
      ensures old(ws).Some? ==>
        var a := AwaitResponse(old(ws).value.incoming, old(messageId) + 1, command, 0);
        && messageId == old(messageId) + 1
        && Sent == old(Sent) + [Request(messageId, command, ParamsOrEmpty(params))]
        && r == a.outcome
        && ws == Some(Socket(old(ws).value.url, old(ws).value.incoming[a.consumed..]))
    {
      if ws.None? {
        return Err(NotConnected);
      }
      messageId := messageId + 1;
      Sent := Sent + [Request(messageId, command, ParamsOrEmpty(params))];
      ghost var all := ws.value.incoming;
      var url := ws.value.url;
      var iterations := 0;
      while iterations < MaxIterations
        invariant 0 <= iterations <= MaxIterations && iterations <= |all|
        invariant ws == Some(Socket(url, all[iterations..]))
        invariant Valid() && messageId == old(messageId) + 1
        invariant Sent == old(Sent) + [Request(messageId, command, ParamsOrEmpty(params))]
        invariant var whole := AwaitResponse(all, messageId, command, 0);
          var rest := AwaitResponse(all[iterations..], messageId, command, iterations);
          whole.outcome == rest.outcome && whole.consumed == rest.consumed + iterations
      {
        var frames := ws.value.incoming;
        if frames == [] {
          return Err(ResponseTimeout(command));
        }
        ws := Some(Socket(url, frames[1..]));
        assert all[iterations..][1..] == all[iterations + 1..];
        match frames[0]
        case RecvTimeout =>
          return Err(ResponseTimeout(command));
        case Unparsable =>
          return Err(MalformedResponse);
        case Message(body) =>
          if !body.JObj? {
            return Err(MalformedResponse);
          }
          if IsResponseTo(body, messageId) {
            return Answer(body);
          }
        iterations := iterations + 1;
      }
      r := Err(TooManyMessages(command));
    }

    /** `execute_js`: Runtime.evaluate, then the exception check. */
    method ExecuteJs(expression: string, returnByValue: bool) returns (r: Result<Json, Failure>)
      requires Valid()
      modifies this
      ensures Valid()
      ensures old(ws).None? ==>
        r == Err(NotConnected) && ws == old(ws) && messageId == old(messageId) && Sent == old(Sent)
      ensures old(ws).Some? ==>
        var a := AwaitResponse(old(ws).value.incoming, old(messageId) + 1, "Runtime.evaluate", 0);
        && messageId == old(messageId) + 1
        && Sent == old(Sent) + [Request(messageId, "Runtime.evaluate", EvaluateParams(expression, returnByValue))]
        && r == (if a.outcome.Err? then a.outcome else ScriptOutcome(a.outcome.value))
        && ws == Some(Socket(old(ws).value.url, old(ws).value.incoming[a.consumed..]))
    {
      var res := SendCommand("Runtime.evaluate", EvaluateParams(expression, returnByValue));
      if res.Err? {
        return res;
      }
      r := ScriptOutcome(res.value);
    }

    /** `close`: afterwards there is no socket, whatever the state before and
        even when closing the socket itself raised. */
    method Close()
      requires Valid()
      modifies this
      ensures Valid()
      ensures ws.None? && messageId == old(messageId) && Sent == old(Sent)
    {
      if ws.Some? {
        ws := None;
      }
    }
  }

  /** The `params` of Runtime.evaluate. */
  function EvaluateParams(expression: string, returnByValue: bool): Json {
    JObj(map["expression" := JStr(expression), "returnByValue" := JBool(returnByValue)])
  }
}
