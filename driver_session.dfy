/**
  The WebDriver bookkeeping of MainRunner: the IE authentication time window
  kept in getCurrentUrl, the history of visited URLs, the proxy port scan, the
  two-attempt driver start in getWebDriver, and the test the Chrome
  authentication helper uses to suspect a login popup. The clock, the
  driver's answers and the outcomes of starting things are inputs.
 */
module DriverSession {
  import opened Wrappers
  import opened JavaText
  import opened Params

  // ---------------------------------------------------------------------------
  // IE authentication window (lines 139, 662-684, 689-691)
  // ---------------------------------------------------------------------------

  /** Milliseconds after a reset during which the IE helper is run. */
  const AuthWindow := 10000
  /** Milliseconds after which the window is opened again. */
  const AuthRecheck := 3600000

  /** Lines 669-671: the helper is wanted for IE when require_authentication is exactly "true". */
  predicate WantsAuthHelper(browser: string, requireAuthentication: Option<string>)
  {
    browser == "ie" && requireAuthentication == Some("true")
  }

  /** The new ieAuthenticationTs and whether runIEMethod was called. */
  datatype AuthStep = AuthStep(ts: int, helperRan: bool)

  /**
    Lines 666-683: inside the window the helper runs when wanted, and a zero
    exit code moves the timestamp back by one window; outside it the
    timestamp jumps to now once an hour has passed.
   */
  function AuthCheck(ts: int, now: int, wantsHelper: bool, exitCode: int): (r: AuthStep)
    ensures r.helperRan <==> now - ts < AuthWindow && wantsHelper
    ensures r.ts < ts <==> r.helperRan && exitCode == 0
    ensures r.ts > ts <==> now - ts > AuthRecheck
    ensures r.ts < ts ==> r.ts == ts - AuthWindow
    ensures r.ts > ts ==> r.ts == now
  {
    if now - ts < AuthWindow then
      AuthStep(if wantsHelper && exitCode == 0 then ts - AuthWindow else ts, wantsHelper)
    else
      AuthStep(if now - ts > AuthRecheck then now else ts, false)
  }

  /** Line 139: the timestamp starts one window before load time, so no call from then on runs the helper. */
  lemma FirstCallOutsideWindow(loadTime: int, now: int, wantsHelper: bool, exitCode: int)
    requires loadTime <= now
    ensures !AuthCheck(loadTime - AuthWindow, now, wantsHelper, exitCode).helperRan
    ensures now - loadTime <= AuthRecheck - AuthWindow ==>
      AuthCheck(loadTime - AuthWindow, now, wantsHelper, exitCode).ts == loadTime - AuthWindow
  {
  }

  /** After a reset at time t, calls within the next ten seconds run the helper exactly when it is wanted. */
  lemma WindowAfterReset(t: int, now: int, wantsHelper: bool, exitCode: int)
    requires t <= now < t + AuthWindow
    ensures AuthCheck(t, now, wantsHelper, exitCode).helperRan == wantsHelper
    ensures AuthCheck(t, now, wantsHelper, exitCode).ts == if wantsHelper && exitCode == 0 then t - AuthWindow else t
  {
  }

  /**
    After a successful login at time now, no later call within the hour
    runs the helper or moves the timestamp.
   */
  lemma QuietAfterSuccess(ts: int, now: int, wantsHelper: bool, later: int, wantsLater: bool, exitLater: int)
    requires ts <= now <= later
    requires AuthCheck(ts, now, wantsHelper, 0).helperRan
    requires later - AuthCheck(ts, now, wantsHelper, 0).ts <= AuthRecheck
    ensures var ts' := AuthCheck(ts, now, wantsHelper, 0).ts;
      AuthCheck(ts', later, wantsLater, exitLater) == AuthStep(ts', false)
  {
  }

  /** Once more than an hour has passed the timestamp becomes now, which opens a new ten-second window. */
  lemma HourlyReopen(ts: int, now: int, wantsHelper: bool, exitCode: int, later: int)
    requires now - ts > AuthRecheck && now <= later < now + AuthWindow
    ensures var ts' := AuthCheck(ts, now, wantsHelper, exitCode).ts;
      ts' == now && AuthCheck(ts', later, wantsHelper, exitCode).helperRan == wantsHelper
  {
  }

  // ---------------------------------------------------------------------------
  // URL history (lines 178-185)
  // ---------------------------------------------------------------------------

  /**
    The history after visiting url: appended when it differs from the last
    entry. On an empty history the lookup of the last entry throws and the
    exception is swallowed, so nothing is appended.
   */
  function PushUrl(stack: seq<string>, url: string): (r: seq<string>)
    ensures stack == [] ==> r == []
    ensures stack != [] ==> r != [] && r[|r| - 1] == url
    ensures r == stack || r == stack + [url]
  {
    if stack == [] then stack
    else if stack[|stack| - 1] == url then stack
    else stack + [url]
  }

  /** No URL follows itself in the history. */
  predicate NoAdjacentRepeats(stack: seq<string>)
  {
    forall i :: 0 < i < |stack| ==> stack[i - 1] != stack[i]
  }

  lemma PushUrlNoRepeats(stack: seq<string>, url: string)
    requires NoAdjacentRepeats(stack)
    ensures NoAdjacentRepeats(PushUrl(stack, url))
  {
    var r := PushUrl(stack, url);
    if r != stack {
      forall i | 0 < i < |r| ensures r[i - 1] != r[i] {
        if i < |stack| {
          assert r[i - 1] == stack[i - 1] && r[i] == stack[i];
        }
      }
    }
  }

  /** Visiting the same URL twice in a row records it once. */
  lemma PushUrlIdempotent(stack: seq<string>, url: string)
    ensures PushUrl(PushUrl(stack, url), url) == PushUrl(stack, url)
  {
  }

  /** The history after a series of visits. */
  function History(stack: seq<string>, urls: seq<string>): seq<string>
    decreases urls
  {
    if urls == [] then stack else History(PushUrl(stack, urls[0]), urls[1..])
  }

  /** Every history built by visits has no immediate repeats, and one that starts empty stays empty. */
  lemma {:induction false} HistoryShape(stack: seq<string>, urls: seq<string>)
    requires NoAdjacentRepeats(stack)
    ensures NoAdjacentRepeats(History(stack, urls))
    ensures stack == [] ==> History(stack, urls) == []
    ensures |stack| <= |History(stack, urls)| <= |stack| + |urls|
    ensures History(stack, urls)[..|stack|] == stack
    decreases urls
  {
    if urls != [] {
      var next := PushUrl(stack, urls[0]);
      PushUrlNoRepeats(stack, urls[0]);
      HistoryShape(next, urls[1..]);
      assert next[..|stack|] == stack;
      assert History(stack, urls)[..|stack|] == History(next, urls[1..])[..|next|][..|stack|];
    }
  }

  // ---------------------------------------------------------------------------
  // Proxy port scan (lines 451-470)
  // ---------------------------------------------------------------------------

  const FirstProxyPort := 7000
  const ProxyPortCount := 10

  /** The first of count ports from port on that starts, if any. */
  function OpenPortFrom(port: int, count: nat, portStarts: int -> bool): (r: Option<int>)
    decreases count
    ensures r.Some? ==> port <= r.value < port + count && portStarts(r.value)
    ensures r.Some? ==> forall p :: port <= p < r.value ==> !portStarts(p)
    ensures r.None? ==> forall p :: port <= p < port + count ==> !portStarts(p)
  {
    if count == 0 then None
    else if portStarts(port) then Some(port)
    else OpenPortFrom(port + 1, count - 1, portStarts)
  }

  /** Lines 451-464, the loop as initProxyServer runs it; None is the System.exit(-1) of lines 465-469. */
  method ScanProxyPort(portStarts: int -> bool) returns (r: Option<int>)
    ensures r == OpenPortFrom(FirstProxyPort, ProxyPortCount, portStarts)
  {
    var port := FirstProxyPort;
    var found := false;
    var i := 0;
    while i < ProxyPortCount
      invariant 0 <= i <= ProxyPortCount && port == FirstProxyPort + i
      invariant OpenPortFrom(FirstProxyPort, ProxyPortCount, portStarts) ==
        OpenPortFrom(port, ProxyPortCount - i, portStarts)
    {
      if portStarts(port) {
        found := true;
        break;
      }
      port := port + 1;
      i := i + 1;
    }
    if !found {
      return None;
    }
    return Some(port);
  }

  // ---------------------------------------------------------------------------
  // Starting the driver (lines 186-218)
  // ---------------------------------------------------------------------------

  /** How getWebDriver ends. */
  datatype Acquired =
    | Reused                                // a driver was already there
    | Created(attempt: nat, port: Option<int>) // resized on this attempt, behind the proxy on port
    | InitThrew(attempt: nat)               // initDriver threw: not caught, so not retried
    | NoProxyPort(attempt: nat)             // initProxyServer found no port and exited
    | GaveUp                                // both attempts failed to resize: System.exit(-1)

  /**
    Attempts attempt, attempt + 1, ... of lines 190-214: set up (a proxy
    first unless it is disabled), then resize the window; only a failed
    resize leads to another attempt. Safari's set-up catches its own
    construction failures and leaves the driver null (lines 387-394), so
    there a failed start is initOk true with resizeOk false: the null driver
    fails the resize and the attempt is retried.
   */
  function AttemptFrom(
    attempt: nat, disableProxy: bool, portStarts: (nat, int) -> bool,
    initOk: nat -> bool, resizeOk: nat -> bool): (r: Acquired)
    decreases 2 - attempt
    ensures !r.Reused?
    ensures r.Created? || r.InitThrew? || r.NoProxyPort? ==> attempt <= r.attempt < 2
    ensures r.Created? ==> initOk(r.attempt) && resizeOk(r.attempt)
    ensures r.Created? ==> (r.port.None? <==> disableProxy)
    ensures r.InitThrew? ==> !initOk(r.attempt)
    ensures r.NoProxyPort? ==> !disableProxy
    ensures r.Created? || r.InitThrew? || r.NoProxyPort? ==>
      forall a :: attempt <= a < r.attempt ==> initOk(a) && !resizeOk(a)
    ensures r.GaveUp? ==> forall a :: attempt <= a < 2 ==> initOk(a) && !resizeOk(a)
  {
    if attempt >= 2 then GaveUp
    else
      var port := if disableProxy then None
        else OpenPortFrom(FirstProxyPort, ProxyPortCount, p => portStarts(attempt, p));
      if !disableProxy && port.None? then NoProxyPort(attempt)
      else if !initOk(attempt) then InitThrew(attempt)
      else if resizeOk(attempt) then Created(attempt, port)
      else AttemptFrom(attempt + 1, disableProxy, portStarts, initOk, resizeOk)
  }

  /** With the proxy disabled, the driver is created exactly when some attempt sets up and resizes before any set-up throws. */
  lemma CreatedWithoutProxy(initOk: nat -> bool, resizeOk: nat -> bool, portStarts: (nat, int) -> bool)
    ensures AttemptFrom(0, true, portStarts, initOk, resizeOk).Created? <==>
      initOk(0) && (resizeOk(0) || (initOk(1) && resizeOk(1)))
    ensures AttemptFrom(0, true, portStarts, initOk, resizeOk).GaveUp? <==>
      initOk(0) && !resizeOk(0) && initOk(1) && !resizeOk(1)
  {
    var r := AttemptFrom(0, true, portStarts, initOk, resizeOk);
    if initOk(0) && !resizeOk(0) {
      assert r == AttemptFrom(1, true, portStarts, initOk, resizeOk);
    }
  }

  /** The WebDriver state MainRunner keeps in static fields. */
  class Session {
    /** MainRunner.driver != null. */
    var driverActive: bool
    /** MainRunner.URLStack. */
    var urlStack: seq<string>
    /** MainRunner.currentURL. */
    var currentUrl: Option<string>
    /** MainRunner.ieAuthenticationTs. */
    var ieAuthTs: int

    /** Lines 120-139: the static initialisers, run at class load time. */
    constructor(loadTime: int)
      ensures !driverActive && urlStack == [] && currentUrl.None?
      ensures ieAuthTs == loadTime - AuthWindow
    {
      driverActive := false;
      urlStack := [];
      currentUrl := None;
      ieAuthTs := loadTime - AuthWindow;
    }

    /** Lines 689-691: authenticationIeInit opens the window now. */
    method AuthenticationIeInit(now: int)
      modifies this
      ensures ieAuthTs == now
      ensures driverActive == old(driverActive) && urlStack == old(urlStack) && currentUrl == old(currentUrl)
    {
      ieAuthTs := now;
    }

    /**
      Lines 662-684: the authentication bookkeeping, then the driver's URL.
      The caller holds a driver.
     */
    method GetCurrentUrl(now: int, env: Env, browser: string, exitCode: int, driverUrl: string)
      returns (url: string, helperRan: bool)
      requires driverActive
      modifies this
      ensures var step := AuthCheck(old(ieAuthTs), now,
        WantsAuthHelper(browser, ExParam(env, "require_authentication")), exitCode);
        ieAuthTs == step.ts && helperRan == step.helperRan
      ensures url == driverUrl
      ensures driverActive && urlStack == old(urlStack) && currentUrl == old(currentUrl)
    {
      helperRan := false;
      if now - ieAuthTs < AuthWindow {
        var requireAuthentication := GetExParams(env, "require_authentication");
        if browser == "ie" && requireAuthentication.Some? && requireAuthentication.value == "true" {
          helperRan := true;
          if exitCode == 0 {
            ieAuthTs := ieAuthTs - AuthWindow;
          }
        }
      } else {
        if now - ieAuthTs > AuthRecheck {
          ieAuthTs := now;
        }
      }
      url := driverUrl;
    }

    /**
      Lines 186-218 for a session without a driver: at most two attempts,
      where a set-up that throws ends the search and a failed resize tries again.
     */
    method Acquire(disableProxy: bool, portStarts: (nat, int) -> bool, initOk: nat -> bool, resizeOk: nat -> bool)
      returns (r: Acquired)
      requires !driverActive
      modifies this
      ensures r == AttemptFrom(0, disableProxy, portStarts, initOk, resizeOk)
      ensures driverActive <==> r.Created? || r.GaveUp? || (!r.Reused? && r.attempt > 0)
      ensures urlStack == old(urlStack) && currentUrl == old(currentUrl) && ieAuthTs == old(ieAuthTs)
    {
      var i := 0;
      while i < 2
        invariant 0 <= i <= 2
        invariant AttemptFrom(0, disableProxy, portStarts, initOk, resizeOk) ==
          AttemptFrom(i, disableProxy, portStarts, initOk, resizeOk)
        invariant driverActive <==> i > 0
        invariant urlStack == old(urlStack) && currentUrl == old(currentUrl) && ieAuthTs == old(ieAuthTs)
      {
        var port: Option<int> := None;
        if !disableProxy {
          port := ScanProxyPort(p => portStarts(i, p));
          if port.None? {
            return NoProxyPort(i);
          }
        }
        if !initOk(i) {
          return InitThrew(i);
        }
        driverActive := true;
        if resizeOk(i) {
          return Created(i, port);
        }
        i := i + 1;
      }
      return GaveUp;
    }

    /**
      Lines 177-218: with a driver, record the URL it shows (lines 178-185)
      and reuse it; without one, start one.
     */
    method GetWebDriver(
      now: int, env: Env, browser: string, exitCode: int, driverUrl: string,
      disableProxy: bool, portStarts: (nat, int) -> bool, initOk: nat -> bool, resizeOk: nat -> bool)
      returns (r: Acquired)
      modifies this
      ensures old(driverActive) ==> r == Reused && driverActive
      ensures old(driverActive) ==> currentUrl == Some(driverUrl) && urlStack == PushUrl(old(urlStack), driverUrl)
      ensures old(driverActive) ==> ieAuthTs == AuthCheck(old(ieAuthTs), now,
        WantsAuthHelper(browser, ExParam(env, "require_authentication")), exitCode).ts
      ensures !old(driverActive) ==> r == AttemptFrom(0, disableProxy, portStarts, initOk, resizeOk)
      ensures !old(driverActive) ==> urlStack == old(urlStack) && currentUrl == old(currentUrl) && ieAuthTs == old(ieAuthTs)
      ensures !old(driverActive) ==> (driverActive <==> r.Created? || r.GaveUp? || r.attempt > 0)
    {
      if driverActive {
        var url, _ := GetCurrentUrl(now, env, browser, exitCode, driverUrl);
        currentUrl := Some(url);
        if urlStack != [] && urlStack[|urlStack| - 1] != url {
          urlStack := urlStack + [url];
        }
        return Reused;
      }
      r := Acquire(disableProxy, portStarts, initOk, resizeOk);
    }
  }

  // ---------------------------------------------------------------------------
  // Chrome authentication popup (lines 841-856)
  // ---------------------------------------------------------------------------

  /** Lines 841-844: the website with its scheme and "www." removed. */
  function SiteOf(url: string): (r: string)
    ensures |r| <= |url|
    ensures !Contains(url, "https://") && !Contains(url, "http://") && !Contains(url, "www.") ==> r == url
  {
    ReplaceAll(ReplaceAll(ReplaceAll(url, "https://", ""), "http://", ""), "www.", "")
  }

  /** The host of `https://www.host` is what remains. */
  lemma SiteOfHttps(host: string)
    requires !Contains(host, "https://") && !Contains(host, "http://") && !Contains(host, "www.")
    ensures SiteOf("https://www." + host) == host
  {
    var w := "www." + host;
    assert "https://www." + host == "https://" + w;
    ReplaceAllPrefix("https://", w, "");
    NoSchemeAfterWww(host);
    assert ReplaceAll("https://" + w, "https://", "") == w;
    StripWww(host);
  }

  /** The host of `http://www.host` is what remains. */
  lemma SiteOfHttp(host: string)
    requires !Contains(host, "https://") && !Contains(host, "http://") && !Contains(host, "www.")
    ensures SiteOf("http://www." + host) == host
  {
    var w := "www." + host;
    var s := "http://www." + host;
    assert s == "http://" + w;
    HttpNotHttps(host);
    assert ReplaceAll(s, "https://", "") == s;
    ReplaceAllPrefix("http://", w, "");
    NoSchemeAfterWww(host);
    assert ReplaceAll(s, "http://", "") == w;
    StripWww(host);
  }

  /** `www.host` holds no scheme when host holds none. */
  lemma NoSchemeAfterWww(host: string)
    requires !Contains(host, "https://") && !Contains(host, "http://")
    ensures !Contains("www." + host, "https://") && !Contains("www." + host, "http://")
    ensures ReplaceAll("www." + host, "https://", "") == "www." + host
    ensures ReplaceAll("www." + host, "http://", "") == "www." + host
  {
    NotContainsConcat("www.", host, "https://");
    NotContainsConcat("www.", host, "http://");
  }

  /** Removing "www." from `www.host` leaves host when host holds no other "www.". */
  lemma StripWww(host: string)
    requires !Contains(host, "www.")
    ensures ReplaceAll("www." + host, "www.", "") == host
  {
    ReplaceAllPrefix("www.", host, "");
    assert "" + host == host;
  }

  /** `http://www.host` holds no "https://" when host holds none. */
  lemma HttpNotHttps(host: string)
    requires !Contains(host, "https://")
    ensures !Contains("http://www." + host, "https://")
  {
    var s := "http://www." + host;
    NotContainsConcat("ttp://www.", host, "https://");
    assert s[1..] == "ttp://www." + host;
    assert s[..8][4] == ':';
  }

  /** Lines 850-856: the page left the site and is blank ("data:") or Chrome's error page. */
  predicate PopupSuspected(website: string, currentUrl: string)
  {
    !Contains(currentUrl, SiteOf(website)) &&
    (Contains(currentUrl, "data:") || Contains(currentUrl, "xnchegrn"))
  }

  /** A page on the website is never taken for the popup. */
  lemma SameSiteNotSuspected(website: string, before: string, after: string)
    ensures !PopupSuspected(website, before + SiteOf(website) + after)
  {
    ContainsInfix(before, SiteOf(website), after);
  }

  /** With the website parameter set to the empty string the popup is never suspected. */
  lemma NoWebsiteNeverSuspected(currentUrl: string)
    ensures !PopupSuspected("", currentUrl)
  {
    assert SiteOf("") == "";
    assert currentUrl[..0] == "";
  }
}
