/** The single browser session of server/tools/playwright_session.py as a
    state machine over its four fields. Which step of launching or cleaning
    up raises is an input; the short session id is cut from a UUID text that
    is also an input. */
module PlaywrightSession {
  import opened Wrappers
  import opened Strings

  datatype Launcher = Chromium | Firefox | Webkit

  /** The running Playwright driver. */
  datatype Driver = Driver
  /** A launched browser: which engine, and whether headless. */
  datatype Browser = Browser(engine: Launcher, headless: bool)
  /** A page with its default timeout in milliseconds, once set. */
  datatype Page = Page(defaultTimeout: Option<int>)

  /** The steps of `launch` that can raise. */
  datatype LaunchStep = Start | LaunchBrowser | NewPage | SetTimeout
  datatype LaunchFault = NoLaunchFault | LaunchRaises(step: LaunchStep, reason: string)

  /** The steps of `cleanup` that can raise. */
  datatype CleanupStep = ClosePage | CloseBrowser | StopDriver

  /** The dicts `launch` and `close` return. A launch reports the browser
      type as given, even when it fell back to chromium. */
  datatype Outcome =
    | Launched(sessionId: string, browserType: string, headless: bool)
    | Closed
    | Failure(error: string)

  const PageTimeoutMs: int := 30000

  /** The four fields of a session at one moment. */
  datatype Handles = Handles(playwright: Option<Driver>, browser: Option<Browser>,
                             page: Option<Page>, sessionId: Option<string>)

  /** The handles after `cleanup` from `h` when the close at `raisesAt` (if
      any) raises: every field before the raising close is cleared, that
      field and all later ones are kept. */
  function Cleaned(h: Handles, raisesAt: Option<CleanupStep>): Handles {
    var pageRaises := h.page.Some? && raisesAt == Some(ClosePage);
    var browserRaises := h.browser.Some? && raisesAt == Some(CloseBrowser);
    var stopRaises := h.playwright.Some? && raisesAt == Some(StopDriver);
    var raised := pageRaises || browserRaises || stopRaises;
    Handles(if raised then h.playwright else None,
            if pageRaises || browserRaises then h.browser else None,
            if pageRaises then h.page else None,
            if raised then h.sessionId else None)
  }

  /** The handles of `launch` at the moment `step` raises, from `h`: the id
      is set first, then the driver, the browser and the page in turn. */
  function RaisedAt(h: Handles, step: LaunchStep, id: string, browser: Browser): Handles {
    match step
    case Start => h.(sessionId := Some(id))
    case LaunchBrowser => h.(sessionId := Some(id), playwright := Some(Driver))
    case NewPage => h.(sessionId := Some(id), playwright := Some(Driver), browser := Some(browser))
    case SetTimeout =>
      Handles(Some(Driver), Some(browser), Some(Page(None)), Some(id))
  }

  /** `browser_type` "firefox" and "webkit" choose their engine; anything
      else chooses chromium. */
  function SelectLauncher(browserType: string): (r: Launcher)
    ensures r == Firefox <==> browserType == "firefox"
    ensures r == Webkit <==> browserType == "webkit"
    ensures r == Chromium <==> browserType != "firefox" && browserType != "webkit"
  {
    if browserType == "firefox" then Firefox
    else if browserType == "webkit" then Webkit
    else Chromium
  }

  class Session {
    var playwright: Option<Driver>
    var browser: Option<Browser>
    var page: Option<Page>
    var sessionId: Option<string>

    constructor ()
      ensures Valid()
      ensures playwright.None? && browser.None? && page.None? && sessionId.None?
      ensures !IsActive()
    {
      playwright := None;
      browser := None;
      page := None;
      sessionId := None;
    }

    /** Handles are acquired driver, browser, page and released in the
        opposite order, so a page implies a browser and a browser a driver. */
    ghost predicate Valid()
      reads this
    {
      && (page.Some? ==> browser.Some?)
      && (browser.Some? ==> playwright.Some?)
    }

    /** The session's fields as a value. */
    function Snapshot(): Handles
      reads this
    {
      Handles(playwright, browser, page, sessionId)
    }

    /** `is_active`: both a browser and a page. */
    predicate IsActive(): (r: bool)
      reads this
      ensures r && Valid() ==> playwright.Some? && browser.Some? && page.Some?
    {
      browser.Some? && page.Some?
    }

    /** `get_page`: the page when active, else nothing. */
    function GetPage(): (r: Option<Page>)
      reads this
      ensures r.Some? <==> IsActive()
      ensures r.Some? ==> r == page
    {
      if IsActive() then page else None
    }

    /** `cleanup`: close the page, the browser and the driver, clearing each
        field after its close, then the session id. A close that raises ends
        the cleanup silently, leaving that field and all later ones set. */
    method Cleanup(raisesAt: Option<CleanupStep>)
      requires Valid()
      modifies this
      ensures Valid()
      ensures var pageRaises := old(page).Some? && raisesAt == Some(ClosePage);
        var browserRaises := old(browser).Some? && raisesAt == Some(CloseBrowser);
        var stopRaises := old(playwright).Some? && raisesAt == Some(StopDriver);
        var raised := pageRaises || browserRaises || stopRaises;
        && page == (if pageRaises then old(page) else None)
        && browser == (if pageRaises || browserRaises then old(browser) else None)
        && playwright == (if raised then old(playwright) else None)
        && sessionId == (if raised then old(sessionId) else None)
      ensures Snapshot() == Cleaned(old(Snapshot()), raisesAt)
    {
      if page.Some? {
        if raisesAt == Some(ClosePage) {
          return;
        }
        page := None;
      }
      if browser.Some? {
        if raisesAt == Some(CloseBrowser) {
          return;
        }
        browser := None;
      }
      if playwright.Some? {
        if raisesAt == Some(StopDriver) {
          return;
        }
        playwright := None;
      }
      sessionId := None;
    }

    /** `launch`. An active session is refused untouched. Otherwise the id is
        set, then the driver started, the browser launched, a page opened and
        its timeout set; the first step that raises triggers `cleanup` and a
        failure carrying its message. */
    method Launch(headless: bool, browserType: string, uuid: string, fault: LaunchFault,
                  cleanupRaisesAt: Option<CleanupStep>) returns (r: Outcome)
      requires Valid()
      modifies this
      ensures Valid()
      ensures old(IsActive()) ==>
        r == Failure("Session already active. Close existing session first.")
        && playwright == old(playwright) && browser == old(browser)
        && page == old(page) && sessionId == old(sessionId)
      ensures !old(IsActive()) && fault.NoLaunchFault? ==>
        r == Launched(SliceTo(uuid, 8), browserType, headless)
        && sessionId == Some(SliceTo(uuid, 8))
        && playwright == Some(Driver)
        && browser == Some(Browser(SelectLauncher(browserType), headless))
        && page == Some(Page(Some(PageTimeoutMs)))
        && IsActive()
      ensures !old(IsActive()) && fault.LaunchRaises? ==> r == Failure(fault.reason)
      ensures !old(IsActive()) && fault.LaunchRaises? ==>
        Snapshot() == Cleaned(RaisedAt(old(Snapshot()), fault.step, SliceTo(uuid, 8),
                                       Browser(SelectLauncher(browserType), headless)),
                              cleanupRaisesAt)
      ensures !old(IsActive()) && fault.LaunchRaises? && cleanupRaisesAt.None? ==>
        playwright.None? && browser.None? && page.None? && sessionId.None?
      ensures !old(IsActive()) && fault.LaunchRaises? && fault.step != SetTimeout ==> !IsActive()
    {
      if IsActive() {
        return Failure("Session already active. Close existing session first.");
      }
      sessionId := Some(SliceTo(uuid, 8));
      if fault.LaunchRaises? && fault.step == Start {
        Cleanup(cleanupRaisesAt);
        return Failure(fault.reason);
      }
      playwright := Some(Driver);
      var launcher := SelectLauncher(browserType);
      if fault.LaunchRaises? && fault.step == LaunchBrowser {
        Cleanup(cleanupRaisesAt);
        return Failure(fault.reason);
      }
      browser := Some(Browser(launcher, headless));
      if fault.LaunchRaises? && fault.step == NewPage {
        Cleanup(cleanupRaisesAt);
        return Failure(fault.reason);
      }
      page := Some(Page(None));
      if fault.LaunchRaises? && fault.step == SetTimeout {
        Cleanup(cleanupRaisesAt);
        return Failure(fault.reason);
      }
      page := Some(Page(Some(PageTimeoutMs)));
      r := Launched(sessionId.value, browserType, headless);
    }

    /** `close`: an inactive session is a failure with nothing changed; an
        active one is cleaned up and reported closed, even when the cleanup
        stopped at a close that raised. */
    method Close(cleanupRaisesAt: Option<CleanupStep>) returns (r: Outcome)
      requires Valid()
      modifies this
      ensures Valid()
      ensures !old(IsActive()) ==>
        r == Failure("No active session to close")
        && playwright == old(playwright) && browser == old(browser)
        && page == old(page) && sessionId == old(sessionId)
      ensures old(IsActive()) ==> r == Closed
      ensures old(IsActive()) && cleanupRaisesAt.None? ==>
        playwright.None? && browser.None? && page.None? && sessionId.None? && !IsActive()
      ensures old(IsActive()) && cleanupRaisesAt == Some(ClosePage) ==>
        playwright == old(playwright) && browser == old(browser)
        && page == old(page) && sessionId == old(sessionId) && IsActive()
      ensures old(IsActive()) && cleanupRaisesAt == Some(CloseBrowser) ==>
        playwright == old(playwright) && browser == old(browser)
        && page.None? && sessionId == old(sessionId) && !IsActive()
      ensures old(IsActive()) && cleanupRaisesAt == Some(StopDriver) ==>
        playwright == old(playwright) && browser.None?
        && page.None? && sessionId == old(sessionId) && !IsActive()
      ensures old(IsActive()) ==> Snapshot() == Cleaned(old(Snapshot()), cleanupRaisesAt)
    {
      if !IsActive() {
        return Failure("No active session to close");
      }
      Cleanup(cleanupRaisesAt);
      r := Closed;
    }
  }

  /** A session launched and then closed without faults is inactive and
      holds no handle; a second close is refused. */
  method LaunchThenClose(s: Session, headless: bool, browserType: string, uuid: string)
    returns (first: Outcome, second: Outcome)
    requires s.Valid() && !s.IsActive()
    modifies s
    ensures first == Closed && second == Failure("No active session to close")
    ensures !s.IsActive() && s.GetPage().None?
  {
    var launched := s.Launch(headless, browserType, uuid, NoLaunchFault, None);
    first := s.Close(None);
    second := s.Close(None);
  }
}
