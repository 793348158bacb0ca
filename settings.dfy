/**
  The small decisions MainRunner.main takes from resolved parameters before it
  builds the argument list: the workspace root, the debug flag, tag
  collection, the wait timeout and the default browser version.
 */
module Settings {
  import opened Wrappers
  import opened JavaText
  import opened Params

  /** Lines 489-493: WORKSPACE, or "." when unset, with backslashes turned into slashes and a trailing slash ensured. */
  function NormalizeWorkspace(param: Option<string>): (r: string)
    ensures r != [] && r[|r| - 1] == '/'
    ensures '\\' !in r
    ensures var w := ReplaceChar(if param.Some? then param.value else ".", '\\', '/');
      |w| <= |r| <= |w| + 1 && r[..|w|] == w
    ensures var w := ReplaceChar(if param.Some? then param.value else ".", '\\', '/');
      (EndsWith(w, "/") ==> r == w) && (!EndsWith(w, "/") ==> r == w + "/")
  {
    var w := if param.Some? then param.value else ".";
    var w' := ReplaceChar(w, '\\', '/');
    assert '\\' !in w' by {
      forall k | 0 <= k < |w'| ensures w'[k] != '\\' { }
    }
    if EndsWith(w', "/") then w' else w' + "/"
  }

  /** Normalising an already normalised workspace changes nothing. */
  lemma NormalizeWorkspaceIdempotent(param: Option<string>)
    ensures NormalizeWorkspace(Some(NormalizeWorkspace(param))) == NormalizeWorkspace(param)
  {
    var r := NormalizeWorkspace(param);
    assert ReplaceChar(r, '\\', '/') == r;
  }

  /** String.matches on a pattern made only of literal alternatives `a|b|...`: a full match of one of them. */
  predicate MatchesAlternatives(s: string, alternatives: seq<string>)
  {
    alternatives != [] && (s == alternatives[0] || MatchesAlternatives(s, alternatives[1..]))
  }

  /** A pattern of literal alternatives fully matches exactly its alternatives. */
  lemma {:induction false} MatchesAlternativesMembership(s: string, alternatives: seq<string>)
    ensures MatchesAlternatives(s, alternatives) <==> s in alternatives
  {
    if alternatives != [] {
      MatchesAlternativesMembership(s, alternatives[1..]);
      assert alternatives == [alternatives[0]] + alternatives[1..];
    }
  }

  /** Lines 147-150: the value of DEBUG, as getExParams returns it, must match `t|true` in full, case sensitive. */
  function IsDebug(debug: Option<string>): (r: bool)
    ensures r <==> debug in {Some("t"), Some("true")}
  {
    if debug.None? then false
    else
      MatchesAlternativesMembership(debug.value, ["t", "true"]);
      MatchesAlternatives(debug.value, ["t", "true"])
  }

  /** Java's toLowerCase, on the letters that can lower-case to a letter of "true". */
  function LowerAscii(c: char): char
  {
    if 'A' <= c <= 'Z' then (c as int + 32) as char else c
  }

  function UpperAscii(c: char): char
  {
    if 'a' <= c <= 'z' then (c as int - 32) as char else c
  }

  function ToLower(s: string): (r: string)
    ensures |r| == |s| && forall k :: 0 <= k < |s| ==> r[k] == LowerAscii(s[k])
  {
    seq(|s|, k requires 0 <= k < |s| => LowerAscii(s[k]))
  }

  function ToUpper(s: string): (r: string)
    ensures |r| == |s| && forall k :: 0 <= k < |s| ==> r[k] == UpperAscii(s[k])
  {
    seq(|s|, k requires 0 <= k < |s| => UpperAscii(s[k]))
  }

  /** Lines 512-515: tag_collection is on when its value lower-cases to "true". */
  function TagCollection(value: Option<string>): (r: bool)
    ensures r <==> value.Some? && |value.value| == 4 && forall k :: 0 <= k < 4 ==> LowerAscii(value.value[k]) == "true"[k]
  {
    value.Some? && ToLower(value.value) == "true"
  }

  /** Unlike DEBUG, tag_collection ignores letter case. */
  lemma TagCollectionIgnoresCase(s: string)
    ensures TagCollection(Some(ToUpper(s))) == TagCollection(Some(s))
  {
    assert ToLower(ToUpper(s)) == ToLower(s);
  }

  /** "TRUE" switches tag collection on, but does not switch debug mode on. */
  lemma UpperTrueDiffers()
    ensures !IsDebug(Some("TRUE")) && TagCollection(Some("TRUE"))
  {
    assert "TRUE"[0] != "true"[0];
    var l := ToLower("TRUE");
    assert l[0] == 't' && l[1] == 'r' && l[2] == 'u' && l[3] == 'e';
  }

  /**
    Lines 521-526: a positive parsed timeout different from the current one
    replaces it. None when Integer.parseInt throws, which escapes main.
   */
  function UpdateTimeout(current: int, value: Option<string>, parseInt: string -> Option<int>): (r: Option<int>)
    ensures value.None? ==> r == Some(current)
    ensures value.Some? && parseInt(value.value).None? ==> r.None?
    ensures value.Some? && parseInt(value.value).Some? && parseInt(value.value).value > 0 ==>
      r == Some(parseInt(value.value).value)
    ensures value.Some? && parseInt(value.value).Some? && parseInt(value.value).value <= 0 ==> r == Some(current)
    ensures r.Some? && r.value != current ==> r.value > 0 && value.Some? && parseInt(value.value) == Some(r.value)
  {
    if value.None? then Some(current)
    else match parseInt(value.value)
      case None => None
      case Some(t) => if t > 0 && t != current then Some(t) else Some(current)
  }

  /** A positive timeout stays positive, and applying the same setting twice is applying it once. */
  lemma UpdateTimeoutStable(current: int, value: Option<string>, parseInt: string -> Option<int>)
    requires current > 0 && UpdateTimeout(current, value, parseInt).Some?
    ensures var t := UpdateTimeout(current, value, parseInt).value;
      t > 0 && UpdateTimeout(t, value, parseInt) == Some(t)
  {
  }

  /** Lines 412-439: the browser version used when browser_version is not given. */
  function DefaultBrowserVersion(browser: string, remoteOS: Option<string>): (r: string)
    ensures browser != "safari" ==> r in {"11.0", "49.0", "20.10240", "45.0"}
    ensures browser == "safari" ==> r in {"9.0", "8.0", "7.0", "6.0", "0"}
    ensures r == "0" <==>
      browser == "safari" && remoteOS.Some? &&
      !Contains(remoteOS.value, "10.11") && !Contains(remoteOS.value, "10.10") &&
      !Contains(remoteOS.value, "10.9") && !Contains(remoteOS.value, "10.8")
  {
    match browser
    case "ie" => "11.0"
    case "chrome" => "49.0"
    case "edge" => "20.10240"
    case "safari" =>
      if remoteOS.None? then "9.0"
      else if Contains(remoteOS.value, "10.11") then "9.0"
      else if Contains(remoteOS.value, "10.10") then "8.0"
      else if Contains(remoteOS.value, "10.9") then "7.0"
      else if Contains(remoteOS.value, "10.8") then "6.0"
      else "0"
    case _ => "45.0"
  }

  /** Only Safari looks at the remote OS. */
  lemma DefaultVersionOnlySafariUsesOS(browser: string, os1: Option<string>, os2: Option<string>)
    requires browser != "safari"
    ensures DefaultBrowserVersion(browser, os1) == DefaultBrowserVersion(browser, os2)
  {
  }

  /** main sets remote_os to "Windows 7" when it is unset, so Safari then defaults to "0", never to "9.0". */
  lemma MainSafariDefault()
    ensures DefaultBrowserVersion("safari", Some("Windows 7")) == "0"
  {
    assert '1' !in "Windows 7";
    NotContainsFirst("Windows 7", "10.11");
    NotContainsFirst("Windows 7", "10.10");
    NotContainsFirst("Windows 7", "10.9");
    NotContainsFirst("Windows 7", "10.8");
  }
}
