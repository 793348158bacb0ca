/**
  The second half of MainRunner.getFeatureScenarios (lines 289-313) and
  findScenario (lines 628-643): every sorted token is cut at the regular
  expression ".feature:" into a feature path and a line number, the path is
  resolved against the workspace, and the static `features` map is filled
  with the scenarios of the parsed feature file.
 */
module FeatureIndex {
  import opened Wrappers
  import opened JavaText
  import ScenarioScan
  import StringOrder

  // ---------------------------------------------------------------------------
  // String.split(".feature:") — the argument is a regular expression
  // ---------------------------------------------------------------------------

  /** The regex `.` without DOTALL: any character but a line terminator. */
  predicate DotMatches(c: char)
  {
    c != '\n' && c != '\r' && c != '\U{85}' && c != '\U{2028}' && c != '\U{2029}'
  }

  /** The pattern `.feature:` matches at k. */
  predicate RegexMatchAt(s: string, k: int)
  {
    0 <= k && k + 9 <= |s| && DotMatches(s[k]) &&
    s[k + 1] == 'f' && s[k + 2] == 'e' && s[k + 3] == 'a' && s[k + 4] == 't' &&
    s[k + 5] == 'u' && s[k + 6] == 'r' && s[k + 7] == 'e' && s[k + 8] == ':'
  }

  function NextRegexMatch(s: string, from: nat): (r: int)
    decreases |s| - from
    ensures r == -1 || (from <= r && RegexMatchAt(s, r))
    ensures r == -1 ==> forall k :: from <= k ==> !RegexMatchAt(s, k)
    ensures r != -1 ==> forall k :: from <= k < r ==> !RegexMatchAt(s, k)
  {
    if from + 9 > |s| then -1
    else if RegexMatchAt(s, from) then from
    else NextRegexMatch(s, from + 1)
  }

  /** The text between successive non-overlapping matches, from start on. */
  function RegexPieces(s: string, start: nat): (r: seq<string>)
    requires start <= |s|
    decreases |s| - start
    ensures |r| >= 1
  {
    var k := NextRegexMatch(s, start);
    if k == -1 then [s[start..]] else [s[start..k]] + RegexPieces(s, k + 9)
  }

  /** String.split(".feature:"): the whole string when nothing matches, else the pieces without trailing empties. */
  function RegexSplit(s: string): seq<string>
  {
    if NextRegexMatch(s, 0) == -1 then [s] else DropTrailingEmpty(RegexPieces(s, 0))
  }

  // ---------------------------------------------------------------------------
  // One token: feature path and line
  // ---------------------------------------------------------------------------

  datatype Target = Target(path: string, line: int)

  /** Line 296: `.feature` is appended unless the path already ends with it. */
  function FeaturePath(p: string): (r: string)
    ensures EndsWith(r, ".feature")
    ensures EndsWith(p, ".feature") ==> r == p
    ensures !EndsWith(p, ".feature") ==> r == p + ".feature"
  {
    if EndsWith(p, ".feature") then p
    else
      assert (p + ".feature")[|p|..] == ".feature";
      p + ".feature"
  }

  /** Utils.parseInt(text, 0): the parsed number, or 0 when the text is not one. */
  function ParseIntOrZero(text: string, parseInt: string -> Option<int>): int
  {
    match parseInt(text)
    case None => 0
    case Some(n) => n
  }

  /**
    Lines 295-300. Err when split returns an empty array (the token is one or
    more ".feature:" and nothing else), where featureInfo[0] throws.
   */
  function TokenTarget(token: string, parseInt: string -> Option<int>): (r: Result<Target, string>)
    ensures r.Ok? <==> HasPath(token)
    ensures r.Ok? ==> EndsWith(r.value.path, ".feature")
    ensures r.Ok? && |RegexSplit(token)| != 2 ==> r.value.line == 0
  {
    var featureInfo := RegexSplit(token);
    if featureInfo == [] then Err(token)
    else
      var line := if |featureInfo| == 2 then ParseIntOrZero(featureInfo[1], parseInt) else 0;
      Ok(Target(FeaturePath(featureInfo[0]), line))
  }

  /** Lines 302-306: a path that does not exist is taken relative to the workspace. */
  function ResolvePath(path: string, workSpace: string, fileExists: string -> bool): (r: string)
    ensures fileExists(path) ==> r == path
    ensures !fileExists(path) ==> r == workSpace + "/" + path
  {
    if fileExists(path) then path else workSpace + "/" + path
  }

  /** Before the last character of ".feature:" no colon occurs. */
  lemma NoColonBeforeMarkerEnd(p: string, n: string, k: nat)
    requires ':' !in p && k < |p| && k + 9 <= |p + ".feature:" + n|
    ensures !RegexMatchAt(p + ".feature:" + n, k)
  {
    var s := p + ".feature:" + n;
    if k + 8 < |p| {
      assert s[k + 8] == p[k + 8];
    } else {
      assert s[k + 8] == ".feature:"[k + 8 - |p|];
    }
  }

  /** A colon-free path, the marker and a colon-free line split into exactly those two parts. */
  lemma SplitTokenParts(p: string, n: string)
    requires ':' !in p && ':' !in n && n != []
    ensures RegexSplit(p + ".feature:" + n) == [p, n]
  {
    var s := p + ".feature:" + n;
    forall k | 0 <= k < |p| && k + 9 <= |s| ensures !RegexMatchAt(s, k) {
      NoColonBeforeMarkerEnd(p, n, k);
    }
    assert RegexMatchAt(s, |p|);
    assert NextRegexMatch(s, 0) == |p|;
    forall k | |p| + 9 <= k ensures !RegexMatchAt(s, k) {
      if k + 9 <= |s| {
        assert s[k + 8] == n[k + 8 - |p| - 9];
      }
    }
    assert s[..|p|] == p && s[|p| + 9..] == n;
    assert RegexPieces(s, |p| + 9) == [n];
  }

  /** The usual token `path.feature:line` gives back its path and its line. */
  lemma TokenRoundTrip(p: string, n: string, parseInt: string -> Option<int>)
    requires ':' !in p && ':' !in n && n != []
    ensures TokenTarget(p + ".feature:" + n, parseInt) == Ok(Target(FeaturePath(p), ParseIntOrZero(n, parseInt)))
  {
    SplitTokenParts(p, n);
  }

  /** Since `.` is a wildcard, any character before "feature:" also splits the token. */
  lemma WildcardSplit()
    ensures RegexSplit("a_feature:5") == ["a", "5"]
  {
    var s := "a_feature:5";
    assert RegexMatchAt(s, 1) && !RegexMatchAt(s, 0);
    assert NextRegexMatch(s, 0) == 1;
    assert NextRegexMatch(s, 10) == -1;
    assert s[..1] == "a" && s[10..] == "5";
  }

  /** A token made of the marker alone leaves no path: split returns an empty array. */
  lemma BareMarkerFails(parseInt: string -> Option<int>)
    ensures TokenTarget(".feature:", parseInt).Err?
  {
    var s := ".feature:";
    assert RegexMatchAt(s, 0);
    assert RegexPieces(s, 0) == ["", ""];
  }

  // ---------------------------------------------------------------------------
  // findScenario and the features map
  // ---------------------------------------------------------------------------

  /** One scenario of a parsed feature file, with its line as Utils.parseInt read it. */
  datatype Element = Element(line: int)

  /** One parsed feature: its "uri" and its "elements". */
  datatype Feature = Feature(uri: Option<string>, elements: seq<Element>)

  /** A value of `features`: the 0 of putIfAbsent, or a scenario element carrying its feature's uri. */
  datatype IndexEntry = Registered | Scenario(line: int, uri: Option<string>)

  function DigitChar(d: nat): char
    requires d < 10
  {
    "0123456789"[d]
  }

  function NatToString(n: nat): (r: string)
    ensures r != []
  {
    if n < 10 then [DigitChar(n)] else NatToString(n / 10) + [DigitChar(n % 10)]
  }

  /** `":" + l`: an int in decimal. */
  function IntToString(n: int): (r: string)
    ensures r != []
  {
    if n < 0 then "-" + NatToString(-n) else NatToString(n)
  }

  /** The key of a scenario recorded for a whole file. */
  function LineKey(path: string, l: int): (r: string)
    ensures r != path && |r| > |path| && r[..|path|] == path
  {
    path + ":" + IntToString(l)
  }

  /** With line 0, every element of one feature is recorded under its line key; later ones win. */
  function RecordElements(m: map<string, IndexEntry>, es: seq<Element>, uri: Option<string>, path: string): map<string, IndexEntry>
  {
    if es == [] then m
    else
      var last := es[|es| - 1];
      RecordElements(m, es[..|es| - 1], uri, path)[LineKey(path, last.line) := Scenario(last.line, uri)]
  }

  function RecordAll(m: map<string, IndexEntry>, fs: seq<Feature>, path: string): map<string, IndexEntry>
  {
    if fs == [] then m
    else
      var last := fs[|fs| - 1];
      RecordElements(RecordAll(m, fs[..|fs| - 1], path), last.elements, last.uri, path)
  }

  /** The first element with the given line, in a feature. */
  function FirstIn(es: seq<Element>, uri: Option<string>, line: int): Option<IndexEntry>
  {
    if es == [] then None
    else if es[0].line == line then Some(Scenario(line, uri))
    else FirstIn(es[1..], uri, line)
  }

  /** The first element with the given line, across the features in order. */
  function FirstMatch(fs: seq<Feature>, line: int): Option<IndexEntry>
  {
    if fs == [] then None
    else
      match FirstIn(fs[0].elements, fs[0].uri, line)
      case Some(e) => Some(e)
      case None => FirstMatch(fs[1..], line)
  }

  /** Recording one more element of a feature. */
  lemma RecordStep(m: map<string, IndexEntry>, es: seq<Element>, i: nat, uri: Option<string>, path: string)
    requires i < |es|
    ensures RecordElements(m, es[..i + 1], uri, path) ==
      RecordElements(m, es[..i], uri, path)[LineKey(path, es[i].line) := Scenario(es[i].line, uri)]
  {
    assert es[..i + 1][..i] == es[..i];
  }

  /** The search for a line from element i: found there, or continued after it. */
  lemma FirstInAt(es: seq<Element>, i: nat, uri: Option<string>, line: int)
    requires i < |es|
    ensures es[i].line == line ==> FirstIn(es[i..], uri, line) == Some(Scenario(line, uri))
    ensures es[i].line != line ==> FirstIn(es[i..], uri, line) == FirstIn(es[i + 1..], uri, line)
  {
    assert es[i..][1..] == es[i + 1..];
  }

  /** Recording the elements of one more feature. */
  lemma RecordAllStep(m: map<string, IndexEntry>, fs: seq<Feature>, i: nat, path: string)
    requires i < |fs|
    ensures RecordAll(m, fs[..i + 1], path) == RecordElements(RecordAll(m, fs[..i], path), fs[i].elements, fs[i].uri, path)
  {
    assert fs[..i + 1][..i] == fs[..i];
  }

  /** The search for a line from feature i: decided by feature i when it has the line, else continued after it. */
  lemma FirstMatchAt(fs: seq<Feature>, i: nat, line: int)
    requires i < |fs|
    ensures FirstIn(fs[i].elements, fs[i].uri, line).Some? ==>
      FirstMatch(fs[i..], line) == FirstIn(fs[i].elements, fs[i].uri, line)
    ensures FirstIn(fs[i].elements, fs[i].uri, line).None? ==> FirstMatch(fs[i..], line) == FirstMatch(fs[i + 1..], line)
  {
    assert fs[i..][1..] == fs[i + 1..];
  }

  predicate HasLine(fs: seq<Feature>, line: int)
  {
    exists i, j :: 0 <= i < |fs| && 0 <= j < |fs[i].elements| && fs[i].elements[j].line == line
  }

  lemma {:induction false} FirstInCorrect(es: seq<Element>, uri: Option<string>, line: int)
    ensures FirstIn(es, uri, line).Some? <==> exists j :: 0 <= j < |es| && es[j].line == line
    ensures FirstIn(es, uri, line).Some? ==> FirstIn(es, uri, line) == Some(Scenario(line, uri))
  {
    if es != [] {
      FirstInCorrect(es[1..], uri, line);
      if exists j :: 0 <= j < |es| && es[j].line == line {
        var j :| 0 <= j < |es| && es[j].line == line;
        if j > 0 {
          assert es[1..][j - 1].line == line;
        }
      }
    }
  }

  /** findScenario with a line finds something exactly when some element has that line, and then that element. */
  lemma {:induction false} FirstMatchCorrect(fs: seq<Feature>, line: int)
    ensures FirstMatch(fs, line).Some? <==> HasLine(fs, line)
    ensures FirstMatch(fs, line).Some? ==> FirstMatch(fs, line).value.Scenario? && FirstMatch(fs, line).value.line == line
  {
    if fs != [] {
      FirstInCorrect(fs[0].elements, fs[0].uri, line);
      FirstMatchCorrect(fs[1..], line);
      if HasLine(fs, line) {
        var i, j :| 0 <= i < |fs| && 0 <= j < |fs[i].elements| && fs[i].elements[j].line == line;
        if i > 0 {
          assert fs[1..][i - 1].elements[j].line == line;
        }
      }
      if HasLine(fs[1..], line) {
        var i, j :| 0 <= i < |fs[1..]| && 0 <= j < |fs[1..][i].elements| && fs[1..][i].elements[j].line == line;
        assert fs[i + 1].elements[j].line == line;
      }
    }
  }

  /** Recording a feature's elements adds exactly their line keys. */
  lemma RecordElementsKeys(m: map<string, IndexEntry>, es: seq<Element>, uri: Option<string>, path: string, k: string)
    ensures k in RecordElements(m, es, uri, path) <==>
      k in m || exists j :: 0 <= j < |es| && k == LineKey(path, es[j].line)
    ensures k !in m && k in RecordElements(m, es, uri, path) ==> RecordElements(m, es, uri, path)[k].Scenario?
    ensures (forall j :: 0 <= j < |es| ==> k != LineKey(path, es[j].line)) ==>
      k in RecordElements(m, es, uri, path) ==> k in m && RecordElements(m, es, uri, path)[k] == m[k]
  {
    RecordElementsKeep(m, es, uri, path, k);
    if k !in m && k in RecordElements(m, es, uri, path) {
      var j := RecordElementsWitness(m, es, uri, path, k);
      RecordElementsAt(m, es, uri, path, j);
    }
    if exists j :: 0 <= j < |es| && k == LineKey(path, es[j].line) {
      var j :| 0 <= j < |es| && k == LineKey(path, es[j].line);
      RecordElementsAt(m, es, uri, path, j);
    }
  }

  /** Keys already present stay; a key that is no element's line key keeps its entry. */
  lemma {:induction false} RecordElementsKeep(m: map<string, IndexEntry>, es: seq<Element>, uri: Option<string>, path: string, k: string)
    ensures k in m ==> k in RecordElements(m, es, uri, path)
    ensures (forall j :: 0 <= j < |es| ==> k != LineKey(path, es[j].line)) ==>
      (k in RecordElements(m, es, uri, path) <==> k in m) &&
      (k in m ==> RecordElements(m, es, uri, path)[k] == m[k])
  {
    if es != [] {
      var init := es[..|es| - 1];
      RecordElementsKeep(m, init, uri, path, k);
      if forall j :: 0 <= j < |es| ==> k != LineKey(path, es[j].line) {
        forall j | 0 <= j < |init| ensures k != LineKey(path, init[j].line) {
          assert init[j] == es[j];
        }
        assert k != LineKey(path, es[|es| - 1].line);
      }
    }
  }

  /** A key added by recording is the line key of some element. */
  lemma {:induction false} RecordElementsWitness(m: map<string, IndexEntry>, es: seq<Element>, uri: Option<string>, path: string, k: string)
    returns (j: nat)
    requires k !in m && k in RecordElements(m, es, uri, path)
    ensures j < |es| && k == LineKey(path, es[j].line)
  {
    var init := es[..|es| - 1];
    var last := es[|es| - 1];
    if k == LineKey(path, last.line) {
      j := |es| - 1;
    } else {
      var prev := RecordElements(m, init, uri, path);
      assert RecordElements(m, es, uri, path) == prev[LineKey(path, last.line) := Scenario(last.line, uri)];
      assert k in prev;
      j := RecordElementsWitness(m, init, uri, path, k);
      assert init[j] == es[j];
    }
  }

  /** Every element's line key ends up recorded, with a scenario. */
  lemma {:induction false} RecordElementsAt(m: map<string, IndexEntry>, es: seq<Element>, uri: Option<string>, path: string, j: nat)
    requires j < |es|
    ensures var k := LineKey(path, es[j].line);
      k in RecordElements(m, es, uri, path) && RecordElements(m, es, uri, path)[k].Scenario?
  {
    if j < |es| - 1 {
      var init := es[..|es| - 1];
      assert init[j] == es[j];
      RecordElementsAt(m, init, uri, path, j);
    }
  }

  /** Recording whole files never touches a key without a line suffix, such as the bare path. */
  lemma {:induction false} RecordAllKeepsPath(m: map<string, IndexEntry>, fs: seq<Feature>, path: string)
    ensures path in RecordAll(m, fs, path) <==> path in m
    ensures path in m ==> RecordAll(m, fs, path)[path] == m[path]
  {
    if fs != [] {
      var last := fs[|fs| - 1];
      var m0 := RecordAll(m, fs[..|fs| - 1], path);
      RecordAllKeepsPath(m, fs[..|fs| - 1], path);
      RecordElementsKeys(m0, last.elements, last.uri, path, path);
    }
  }

  /** Lines 628-643: the features map after findScenario. */
  function Found(m: map<string, IndexEntry>, parsed: seq<Feature>, path: string, line: int): map<string, IndexEntry>
  {
    if line == 0 then RecordAll(m, parsed, path)
    else if FirstMatch(parsed, line).Some? then m[path := FirstMatch(parsed, line).value]
    else m
  }

  /** Line 311 after findScenario: the features map after one token. */
  function IndexToken(m: map<string, IndexEntry>, parsed: seq<Feature>, path: string, line: int): map<string, IndexEntry>
  {
    var found := Found(m, parsed, path, line);
    if path in found then found else found[path := Registered]
  }

  /**
    What one token leaves under its bare path: the matched scenario when a
    line was asked for and found, else what was there before, else the 0 of
    putIfAbsent. A file-wide token never records a scenario under the bare path.
   */
  lemma IndexTokenPath(m: map<string, IndexEntry>, parsed: seq<Feature>, path: string, line: int)
    ensures path in IndexToken(m, parsed, path, line)
    ensures line != 0 && HasLine(parsed, line) ==>
      FirstMatch(parsed, line).Some? && IndexToken(m, parsed, path, line)[path] == FirstMatch(parsed, line).value &&
      IndexToken(m, parsed, path, line)[path].Scenario? && IndexToken(m, parsed, path, line)[path].line == line
    ensures !(line != 0 && HasLine(parsed, line)) ==>
      IndexToken(m, parsed, path, line)[path] == if path in m then m[path] else Registered
  {
    FirstMatchCorrect(parsed, line);
    RecordAllKeepsPath(m, parsed, path);
  }

  /** A token with a line changes nothing but the bare path. */
  lemma IndexTokenWithLineLocal(m: map<string, IndexEntry>, parsed: seq<Feature>, path: string, line: int, k: string)
    requires line != 0 && k != path
    ensures k in IndexToken(m, parsed, path, line) <==> k in m
    ensures k in m ==> IndexToken(m, parsed, path, line)[k] == m[k]
  {
  }

  // ---------------------------------------------------------------------------
  // The static map and the two methods that fill it
  // ---------------------------------------------------------------------------

  /** How getFeatureScenarios ends when it does not return its list. */
  datatype ScenarioFailure =
    | ScanCutBeforeStart      // StringIndexOutOfBoundsException in the scan loop
    | ScanHangs               // the scan loop appends "" until the list exhausts memory
    | NoFeaturePath(token: string)  // featureInfo[0] on an empty split

  class ScenarioIndex {
    /** MainRunner.features. */
    var features: map<string, IndexEntry>

    constructor()
      ensures features == map[]
    {
      features := map[];
    }

    /** Lines 628-643. */
    method FindScenario(featureScenarios: seq<Feature>, scenarioPath: string, line: int) returns (found: bool)
      modifies this
      ensures found <==> line != 0 && HasLine(featureScenarios, line)
      ensures features == Found(old(features), featureScenarios, scenarioPath, line)
    {
      FirstMatchCorrect(featureScenarios, line);
      var fi := 0;
      while fi < |featureScenarios|
        invariant 0 <= fi <= |featureScenarios|
        invariant line == 0 ==> features == RecordAll(old(features), featureScenarios[..fi], scenarioPath)
        invariant line != 0 ==> features == old(features)
        invariant line != 0 ==> FirstMatch(featureScenarios, line) == FirstMatch(featureScenarios[fi..], line)
      {
        var scenario := featureScenarios[fi];
        var hit := FindInFeature(scenario, scenarioPath, line);
        FirstMatchAt(featureScenarios, fi, line);
        if hit {
          return true;
        }
        RecordAllStep(old(features), featureScenarios, fi, scenarioPath);
        fi := fi + 1;
      }
      assert featureScenarios[..fi] == featureScenarios;
      return false;
    }

    /** Lines 632-640: the inner loop of findScenario, over the elements of one parsed feature. */
    method FindInFeature(scenario: Feature, scenarioPath: string, line: int) returns (found: bool)
      modifies this
      ensures line == 0 ==> !found && features == RecordElements(old(features), scenario.elements, scenario.uri, scenarioPath)
      ensures line != 0 ==> (found <==> FirstIn(scenario.elements, scenario.uri, line).Some?)
      ensures line != 0 && found ==> features == old(features)[scenarioPath := FirstIn(scenario.elements, scenario.uri, line).value]
      ensures line != 0 && !found ==> features == old(features)
    {
      var elements := scenario.elements;
      var ei := 0;
      while ei < |elements|
        invariant 0 <= ei <= |elements|
        invariant line == 0 ==> features == RecordElements(old(features), elements[..ei], scenario.uri, scenarioPath)
        invariant line != 0 ==> features == old(features)
        invariant line != 0 ==> FirstIn(elements, scenario.uri, line) == FirstIn(elements[ei..], scenario.uri, line)
      {
        var l := elements[ei].line;
        if line == 0 || line == l {
          var element := Scenario(l, scenario.uri);
          var key := scenarioPath + (if line == 0 then ":" + IntToString(l) else "");
          features := features[key := element];
          if line == 0 {
            assert key == LineKey(scenarioPath, l);
            RecordStep(old(features), elements, ei, scenario.uri, scenarioPath);
            ei := ei + 1;
            continue;
          }
          assert key == scenarioPath + "";
          assert scenarioPath + "" == scenarioPath;
          FirstInAt(elements, ei, scenario.uri, line);
          return true;
        }
        FirstInAt(elements, ei, scenario.uri, line);
        ei := ei + 1;
      }
      assert elements[..ei] == elements;
      return false;
    }

    /** Line 311: features.putIfAbsent(path, 0). */
    method PutIfAbsent(path: string)
      modifies this
      ensures path in old(features) ==> features == old(features)
      ensures path !in old(features) ==> features == old(features)[path := Registered]
    {
      if path !in features {
        features := features[path := Registered];
      }
    }

    /**
      Lines 271-314. The parsed feature files, File.exists and Utils.parseInt
      are parameters. The list returned is the sorted token list; the map
      holds every token's entries.
     */
    method GetFeatureScenarios(
      scenarios: Option<string>, workSpaceParam: Option<string>,
      fileExists: string -> bool, gherkin: string -> seq<Feature>, parseInt: string -> Option<int>)
      returns (r: Result<seq<string>, ScenarioFailure>)
      modifies this
      ensures r == FeatureScenarios(scenarios)
      ensures r.Ok? ==>
        features == IndexTokens(old(features), r.value, WorkSpace(workSpaceParam), fileExists, gherkin, parseInt)
    {
      var scan := ScenarioScan.ScanScenarios(scenarios);
      if scan.CutBeforeStart? {
        return Err(ScanCutBeforeStart);
      }
      if scan.EmptyForever? {
        return Err(ScanHangs);
      }
      var scenarioList := StringOrder.Sort(scan.tokens);
      var workSpace := WorkSpace(workSpaceParam);
      var t := 0;
      while t < |scenarioList|
        invariant 0 <= t <= |scenarioList|
        invariant forall j :: 0 <= j < t ==> HasPath(scenarioList[j])
        invariant IndexTokens(old(features), scenarioList, workSpace, fileExists, gherkin, parseInt) ==
          IndexTokens(features, scenarioList[t..], workSpace, fileExists, gherkin, parseInt)
      {
        var featureFilePath := scenarioList[t];
        var target := TokenTarget(featureFilePath, parseInt);
        if target.Err? {
          TargetsFailAt(scenarioList, t);
          return Err(NoFeaturePath(featureFilePath));
        }
        var path := ResolvePath(target.value.path, workSpace, fileExists);
        assert scenarioList[t..][1..] == scenarioList[t + 1..];
        var _ := FindScenario(gherkin(path), path, target.value.line);
        PutIfAbsent(path);
        t := t + 1;
      }
      TargetsOk(scenarioList);
      return Ok(scenarioList);
    }
  }

  /** Lines 291-293: the WORKSPACE parameter, or "" when it is unset. */
  function WorkSpace(param: Option<string>): string
  {
    if param.Some? then param.value else ""
  }

  /** featureInfo[0] exists: split left something. */
  predicate HasPath(token: string)
  {
    RegexSplit(token) != []
  }

  /** The first token whose split is empty, or -1. */
  function FirstBadToken(ts: seq<string>): (r: int)
    ensures -1 <= r < |ts|
    ensures r == -1 <==> forall j :: 0 <= j < |ts| ==> HasPath(ts[j])
    ensures r != -1 ==> !HasPath(ts[r]) && forall j :: 0 <= j < r ==> HasPath(ts[j])
  {
    FirstBadFrom(ts, 0)
  }

  /** The first token at or after i whose split is empty, or -1. */
  function FirstBadFrom(ts: seq<string>, i: nat): (r: int)
    requires i <= |ts|
    decreases |ts| - i
    ensures -1 <= r < |ts|
    ensures r == -1 <==> forall j :: i <= j < |ts| ==> HasPath(ts[j])
    ensures r != -1 ==> i <= r && !HasPath(ts[r]) && forall j :: i <= j < r ==> HasPath(ts[j])
  {
    if i == |ts| then -1
    else if !HasPath(ts[i]) then i
    else FirstBadFrom(ts, i + 1)
  }

  /** The list getFeatureScenarios returns, or how it fails. */
  function FeatureScenarios(scenarios: Option<string>): Result<seq<string>, ScenarioFailure>
  {
    match ScenarioScan.Scan(scenarios)
    case CutBeforeStart => Err(ScanCutBeforeStart)
    case EmptyForever => Err(ScanHangs)
    case Scanned(tokens) =>
      var sorted := StringOrder.Sort(tokens);
      var bad := FirstBadToken(sorted);
      if bad == -1 then Ok(sorted) else Err(NoFeaturePath(sorted[bad]))
  }

  /**
    A list returned is the scanned tokens in ascending order, each with a
    path; a failure after the scan names a token without one.
   */
  lemma FeatureScenariosShape(scenarios: Option<string>)
    ensures var r := FeatureScenarios(scenarios);
      r.Ok? ==>
        ScenarioScan.Scan(scenarios).Scanned? &&
        StringOrder.Sorted(r.value) && multiset(r.value) == multiset(ScenarioScan.Scan(scenarios).tokens) &&
        forall j :: 0 <= j < |r.value| ==> HasPath(r.value[j])
    ensures var r := FeatureScenarios(scenarios);
      r.Err? && r.error.NoFeaturePath? ==>
        ScenarioScan.Scan(scenarios).Scanned? &&
        r.error.token in ScenarioScan.Scan(scenarios).tokens && !HasPath(r.error.token)
  {
    var scan := ScenarioScan.Scan(scenarios);
    if scan.Scanned? {
      var sorted := StringOrder.Sort(scan.tokens);
      var bad := FirstBadToken(sorted);
      if bad != -1 {
        assert sorted[bad] in multiset(sorted);
      }
    }
  }

  lemma TargetsFailAt(ts: seq<string>, t: nat)
    requires t < |ts| && !HasPath(ts[t])
    requires forall j :: 0 <= j < t ==> HasPath(ts[j])
    ensures FirstBadToken(ts) == t
  {
  }

  lemma TargetsOk(ts: seq<string>)
    requires forall j :: 0 <= j < |ts| ==> HasPath(ts[j])
    ensures FirstBadToken(ts) == -1
  {
  }

  /** The map after one token that has a path (lines 295-311). */
  function IndexOne(
    m: map<string, IndexEntry>, token: string, workSpace: string,
    fileExists: string -> bool, gherkin: string -> seq<Feature>, parseInt: string -> Option<int>): map<string, IndexEntry>
  {
    match TokenTarget(token, parseInt)
    case Err(_) => m
    case Ok(target) =>
      var path := ResolvePath(target.path, workSpace, fileExists);
      IndexToken(m, gherkin(path), path, target.line)
  }

  /**
    The map after the tokens, one after another. A token without a path
    stops getFeatureScenarios before it touches the map, and is skipped here.
   */
  function IndexTokens(
    m: map<string, IndexEntry>, ts: seq<string>, workSpace: string,
    fileExists: string -> bool, gherkin: string -> seq<Feature>, parseInt: string -> Option<int>): map<string, IndexEntry>
    decreases ts
  {
    if ts == [] then m
    else IndexTokens(IndexOne(m, ts[0], workSpace, fileExists, gherkin, parseInt), ts[1..], workSpace, fileExists, gherkin, parseInt)
  }

  /** Every token's resolved path ends up registered in the map. */
  lemma {:induction false} IndexTokensRegisters(
    m: map<string, IndexEntry>, ts: seq<string>, workSpace: string,
    fileExists: string -> bool, gherkin: string -> seq<Feature>, parseInt: string -> Option<int>, j: nat)
    requires j < |ts| && HasPath(ts[j])
    ensures ResolvePath(TokenTarget(ts[j], parseInt).value.path, workSpace, fileExists) in
      IndexTokens(m, ts, workSpace, fileExists, gherkin, parseInt)
    decreases ts
  {
    IndexTokensHas(m, ts, workSpace, fileExists, gherkin, parseInt, j, ts[j]);
  }

  /** The induction behind IndexTokensRegisters, with the token named. */
  lemma {:induction false} IndexTokensHas(
    m: map<string, IndexEntry>, ts: seq<string>, workSpace: string,
    fileExists: string -> bool, gherkin: string -> seq<Feature>, parseInt: string -> Option<int>, j: nat, token: string)
    requires j < |ts| && ts[j] == token && HasPath(token)
    ensures ResolvePath(TokenTarget(token, parseInt).value.path, workSpace, fileExists) in
      IndexTokens(m, ts, workSpace, fileExists, gherkin, parseInt)
    decreases ts
  {
    var m1 := IndexOne(m, ts[0], workSpace, fileExists, gherkin, parseInt);
    if j == 0 {
      IndexOneRegisters(m, token, workSpace, fileExists, gherkin, parseInt);
      IndexTokensGrow(m1, ts[1..], workSpace, fileExists, gherkin, parseInt);
    } else {
      var rest := ts[1..];
      assert rest[j - 1] == token;
      IndexTokensHas(m1, rest, workSpace, fileExists, gherkin, parseInt, j - 1, token);
    }
  }

  /** A token with a path registers its resolved path. */
  lemma IndexOneRegisters(
    m: map<string, IndexEntry>, token: string, workSpace: string,
    fileExists: string -> bool, gherkin: string -> seq<Feature>, parseInt: string -> Option<int>)
    requires HasPath(token)
    ensures ResolvePath(TokenTarget(token, parseInt).value.path, workSpace, fileExists) in
      IndexOne(m, token, workSpace, fileExists, gherkin, parseInt)
  {
    var target := TokenTarget(token, parseInt).value;
    var path := ResolvePath(target.path, workSpace, fileExists);
    IndexTokenPath(m, gherkin(path), path, target.line);
  }

  /** Tokens only add keys to the map. */
  lemma {:induction false} IndexTokensGrow(
    m: map<string, IndexEntry>, ts: seq<string>, workSpace: string,
    fileExists: string -> bool, gherkin: string -> seq<Feature>, parseInt: string -> Option<int>)
    ensures m.Keys <= IndexTokens(m, ts, workSpace, fileExists, gherkin, parseInt).Keys
    decreases ts
  {
    if ts != [] {
      var m1 := IndexOne(m, ts[0], workSpace, fileExists, gherkin, parseInt);
      if HasPath(ts[0]) {
        var target := TokenTarget(ts[0], parseInt).value;
        var path := ResolvePath(target.path, workSpace, fileExists);
        IndexTokenGrows(m, gherkin(path), path, target.line);
      }
      IndexTokensGrow(m1, ts[1..], workSpace, fileExists, gherkin, parseInt);
    }
  }

  /** A token only adds keys to the map. */
  lemma IndexTokenGrows(m: map<string, IndexEntry>, parsed: seq<Feature>, path: string, line: int)
    ensures m.Keys <= IndexToken(m, parsed, path, line).Keys
  {
    if line == 0 {
      RecordAllGrows(m, parsed, path);
    }
  }

  lemma {:induction false} RecordAllGrows(m: map<string, IndexEntry>, fs: seq<Feature>, path: string)
    ensures m.Keys <= RecordAll(m, fs, path).Keys
  {
    if fs != [] {
      var last := fs[|fs| - 1];
      RecordAllGrows(m, fs[..|fs| - 1], path);
      forall k | k in RecordAll(m, fs[..|fs| - 1], path) ensures k in RecordAll(m, fs, path) {
        RecordElementsKeys(RecordAll(m, fs[..|fs| - 1], path), last.elements, last.uri, path, k);
      }
    }
  }
}
