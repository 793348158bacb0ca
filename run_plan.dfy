/**
  The argument list MainRunner.main hands to Cucumber (lines 533-613): the
  sorted scenario tokens grouped by feature file, the tags, the workspace
  prefix, the project glue and the fixed plugin arguments.
 */
module RunPlan {
  import opened Wrappers
  import opened JavaText

  // ---------------------------------------------------------------------------
  // Grouping by feature file (lines 533-551)
  // ---------------------------------------------------------------------------

  /** The feature path of a token: the trimmed text before its last colon. */
  function KeyOf(t: string): string
    requires ':' in t
  {
    Trim(t[..LastIndexOfChar(t, ':')])
  }

  /** The line of a token: the text after its last colon. */
  function LineOf(t: string): string
    requires ':' in t
  {
    t[LastIndexOfChar(t, ':') + 1..]
  }

  /** The HashMap `hs` after the tokens: lines appended per key, tokens without a colon skipped. */
  function Group(ts: seq<string>): map<string, seq<string>>
  {
    if ts == [] then map[]
    else
      var g := Group(ts[..|ts| - 1]);
      var t := ts[|ts| - 1];
      if ':' !in t then g
      else g[KeyOf(t) := (if KeyOf(t) in g then g[KeyOf(t)] else []) + [LineOf(t)]]
  }

  /** The token t holds a colon and its feature path is k. */
  predicate KeyedBy(t: string, k: string)
  {
    ':' in t && KeyOf(t) == k
  }

  /** The lines of key k, in token order: the reference the grouping is checked against. */
  function LinesFor(ts: seq<string>, k: string): seq<string>
  {
    if ts == [] then []
    else LinesFor(ts[..|ts| - 1], k) + (if KeyedBy(ts[|ts| - 1], k) then [LineOf(ts[|ts| - 1])] else [])
  }

  /** Every key holds exactly its tokens' lines, in token order; a key is present exactly when it has a line. */
  lemma {:induction false} GroupLines(ts: seq<string>, k: string)
    ensures k in Group(ts) <==> LinesFor(ts, k) != []
    ensures k in Group(ts) ==> Group(ts)[k] == LinesFor(ts, k)
  {
    if ts != [] {
      GroupLines(ts[..|ts| - 1], k);
      GroupLast(ts, k);
    }
  }

  /** What the last token does to key k. */
  lemma GroupLast(ts: seq<string>, k: string)
    requires ts != []
    ensures var g := Group(ts[..|ts| - 1]); var t := ts[|ts| - 1];
      if KeyedBy(t, k) then
        k in Group(ts) && Group(ts)[k] == (if k in g then g[k] else []) + [LineOf(t)]
      else
        (k in Group(ts) <==> k in g) && (k in g ==> Group(ts)[k] == g[k])
  {
  }

  lemma LinesForNonEmpty(ts: seq<string>, k: string)
    ensures LinesFor(ts, k) != [] <==> exists i :: 0 <= i < |ts| && KeyedBy(ts[i], k)
  {
    if LinesFor(ts, k) != [] {
      var i := KeyedWitness(ts, k);
    }
    if exists i :: 0 <= i < |ts| && KeyedBy(ts[i], k) {
      var i :| 0 <= i < |ts| && KeyedBy(ts[i], k);
      KeyedLines(ts, k, i);
    }
  }

  /** A key with lines has a token that carries it. */
  lemma {:induction false} KeyedWitness(ts: seq<string>, k: string) returns (i: nat)
    requires LinesFor(ts, k) != []
    ensures i < |ts| && KeyedBy(ts[i], k)
  {
    var init := ts[..|ts| - 1];
    if KeyedBy(ts[|ts| - 1], k) {
      i := |ts| - 1;
    } else {
      i := KeyedWitness(init, k);
      assert ts[i] == init[i];
    }
  }

  /** A token that carries key k gives k a line. */
  lemma {:induction false} KeyedLines(ts: seq<string>, k: string, i: nat)
    requires i < |ts| && KeyedBy(ts[i], k)
    ensures LinesFor(ts, k) != []
  {
    if i < |ts| - 1 {
      var init := ts[..|ts| - 1];
      assert init[i] == ts[i];
      KeyedLines(init, k, i);
    }
  }

  /** The keys of the grouping are the keys of the tokens that hold a colon. */
  lemma GroupKeys(ts: seq<string>, k: string)
    ensures k in Group(ts) <==> exists i :: 0 <= i < |ts| && KeyedBy(ts[i], k)
  {
    GroupLines(ts, k);
    LinesForNonEmpty(ts, k);
  }

  /** The grouping is empty exactly when no token holds a colon. */
  lemma GroupEmpty(ts: seq<string>)
    ensures Group(ts) == map[] <==> forall i :: 0 <= i < |ts| ==> ':' !in ts[i]
  {
    if exists i :: 0 <= i < |ts| && ':' in ts[i] {
      var i :| 0 <= i < |ts| && ':' in ts[i];
      GroupKeys(ts, KeyOf(ts[i]));
    }
    if Group(ts) != map[] {
      var k :| k in Group(ts);
      GroupKeys(ts, k);
    }
  }

  lemma LastColonSplit(p: string, n: string)
    requires ':' !in n
    ensures ':' in p + ":" + n && KeyOf(p + ":" + n) == Trim(p) && LineOf(p + ":" + n) == n
  {
    var t := p + ":" + n;
    assert t[|p| + 1..] == n;
    assert t[..|p|] == p;
    assert t[|p|] == ':';
    LastIndexOfCharAt(t, ':', |p|);
  }

  /** The tokens `p:n1`, `p:n2`, ... of one feature file. */
  function FileTokens(p: string, ns: seq<string>): (r: seq<string>)
    ensures |r| == |ns|
  {
    if ns == [] then [] else FileTokens(p, ns[..|ns| - 1]) + [p + ":" + ns[|ns| - 1]]
  }

  /** Appending a token with a colon adds its line to its key. */
  lemma GroupSnoc(ts: seq<string>, t: string)
    requires ':' in t
    ensures var g := Group(ts);
      Group(ts + [t]) == g[KeyOf(t) := (if KeyOf(t) in g then g[KeyOf(t)] else []) + [LineOf(t)]]
  {
    assert (ts + [t])[..|ts|] == ts;
  }

  /** Tokens of one feature file become one key with all their lines, in order. */
  lemma {:induction false} GroupOneFile(p: string, ns: seq<string>)
    requires forall i :: 0 <= i < |ns| ==> ':' !in ns[i]
    requires ns != []
    ensures Group(FileTokens(p, ns)) == map[Trim(p) := ns]
  {
    var init := ns[..|ns| - 1];
    assert init + [ns[|ns| - 1]] == ns;
    if |ns| > 1 {
      GroupOneFile(p, init);
    }
    OneFileStep(p, init, ns[|ns| - 1]);
  }

  lemma OneFileStep(p: string, init: seq<string>, last: string)
    requires ':' !in last
    requires Group(FileTokens(p, init)) == if init == [] then map[] else map[Trim(p) := init]
    ensures Group(FileTokens(p, init + [last])) == map[Trim(p) := init + [last]]
  {
    var tok := p + ":" + last;
    assert (init + [last])[..|init|] == init;
    assert FileTokens(p, init + [last]) == FileTokens(p, init) + [tok];
    LastColonSplit(p, last);
    GroupSnoc(FileTokens(p, init), tok);
    var k := Trim(p);
    if init == [] {
      assert init + [last] == [] + [last];
      assert map[][k := [] + [last]] == map[k := [] + [last]];
    } else {
      OverwriteSingleton(k, init, init + [last]);
    }
  }

  lemma OverwriteSingleton(k: string, a: seq<string>, b: seq<string>)
    ensures map[k := a][k := b] == map[k := b]
  {
  }

  /** Lines 533-546. */
  method GroupScenarios(featureScenarios: seq<string>) returns (hs: map<string, seq<string>>)
    ensures hs == Group(featureScenarios)
  {
    hs := map[];
    var i := 0;
    while i < |featureScenarios|
      invariant 0 <= i <= |featureScenarios|
      invariant hs == Group(featureScenarios[..i])
    {
      var scenario := featureScenarios[i];
      assert featureScenarios[..i + 1][..i] == featureScenarios[..i];
      var lineIndex := LastIndexOfChar(scenario, ':');
      if lineIndex == -1 {
        i := i + 1;
        continue;
      }
      var scenarioPath := Trim(scenario[..lineIndex]);
      var line := scenario[lineIndex + 1..];
      var lines: seq<string>;
      if scenarioPath in hs {
        lines := hs[scenarioPath];
      } else {
        lines := [];
      }
      hs := hs[scenarioPath := lines + [line]];
      i := i + 1;
    }
    assert featureScenarios[..i] == featureScenarios;
  }

  // ---------------------------------------------------------------------------
  // The plan entries (lines 548-554)
  // ---------------------------------------------------------------------------

  /** `key + ":" + StringUtils.join(lines, ":")`. */
  function Entry(key: string, lines: seq<string>): (r: string)
    ensures |r| > |key| && r[..|key|] == key && r[|key|] == ':'
  {
    key + ":" + Join(lines, ":")
  }

  /** A listing of a key set without repetitions: an iteration order of a HashMap. */
  predicate IsListing(order: seq<string>, keys: set<string>)
  {
    (forall k :: k in order ==> k in keys) && (forall k :: k in keys ==> k in order) &&
    forall i, j :: 0 <= i < j < |order| ==> order[i] != order[j]
  }

  /** Every finite key set has a listing. */
  lemma ListingOf(keys: set<string>) returns (order: seq<string>)
    ensures IsListing(order, keys)
    decreases keys
  {
    if keys == {} {
      order := [];
    } else {
      var k :| k in keys;
      var rest := ListingOf(keys - {k});
      order := rest + [k];
      assert forall i :: 0 <= i < |rest| ==> order[i] == rest[i];
    }
  }

  function Entries(g: map<string, seq<string>>, order: seq<string>): (r: seq<string>)
    requires forall k :: k in order ==> k in g
    ensures |r| == |order|
    ensures forall i :: 0 <= i < |order| ==> r[i] == Entry(order[i], g[order[i]])
  {
    if order == [] then []
    else Entries(g, order[..|order| - 1]) + [Entry(order[|order| - 1], g[order[|order| - 1]])]
  }

  /** Line 534: the first sorted token, or "" when there is none. */
  function FirstScenario(featureScenarios: seq<string>): string
  {
    if |featureScenarios| > 0 then featureScenarios[0] else ""
  }

  /**
    Lines 548-554: one entry per key in the map's iteration order, or the
    first token alone when no token held a colon.
   */
  function PlanFor(featureScenarios: seq<string>, order: seq<string>): seq<string>
    requires IsListing(order, Group(featureScenarios).Keys)
  {
    if order == [] then [FirstScenario(featureScenarios)]
    else Entries(Group(featureScenarios), order)
  }

  /**
    The plan has one entry per feature file, each `file:line:line...` with
    the file's lines in sorted-token order, whatever the map's iteration
    order; without any colon it falls back to the first token.
   */
  lemma PlanShape(featureScenarios: seq<string>, order: seq<string>)
    requires IsListing(order, Group(featureScenarios).Keys)
    ensures order == [] <==> forall i :: 0 <= i < |featureScenarios| ==> ':' !in featureScenarios[i]
    ensures order == [] ==> PlanFor(featureScenarios, order) == [FirstScenario(featureScenarios)]
    ensures order != [] ==>
      |PlanFor(featureScenarios, order)| == |order| &&
      forall i :: 0 <= i < |order| ==>
        PlanFor(featureScenarios, order)[i] == Entry(order[i], LinesFor(featureScenarios, order[i]))
  {
    GroupEmpty(featureScenarios);
    if order == [] {
      assert Group(featureScenarios).Keys == {};
    } else {
      assert order[0] in Group(featureScenarios);
      forall i | 0 <= i < |order| ensures Group(featureScenarios)[order[i]] == LinesFor(featureScenarios, order[i]) {
        GroupLines(featureScenarios, order[i]);
      }
    }
  }

  /** Lines 533-554: grouping, then the entries in the map's iteration order, chosen freely here. */
  method GroupPlan(featureScenarios: seq<string>) returns (plan: seq<string>, ghost order: seq<string>)
    ensures IsListing(order, Group(featureScenarios).Keys)
    ensures plan == PlanFor(featureScenarios, order)
  {
    var firstScenario := FirstScenario(featureScenarios);
    var hs := GroupScenarios(featureScenarios);
    var keys := hs.Keys;
    plan := [];
    order := [];
    while keys != {}
      invariant keys <= hs.Keys
      invariant forall k :: k in order <==> k in hs.Keys - keys
      invariant forall i, j :: 0 <= i < j < |order| ==> order[i] != order[j]
      invariant plan == Entries(hs, order)
      decreases keys
    {
      var key :| key in keys;
      assert key !in order;
      plan := plan + [Entry(key, hs[key])];
      assert (order + [key])[..|order|] == order;
      order := order + [key];
      keys := keys - {key};
    }
    if plan == [] {
      plan := plan + [firstScenario];
    }
  }

  // ---------------------------------------------------------------------------
  // Tags, project, workspace prefix, glue (lines 556-613)
  // ---------------------------------------------------------------------------

  /** Lines 556-563: `--tags` and the trimmed tags, when they are not blank. */
  function TagsPart(tags: Option<string>): (r: seq<string>)
    ensures r == [] || (tags.Some? && r == ["--tags", Trim(tags.value)])
    ensures r != [] <==> tags.Some? && Trim(tags.value) != []
  {
    if tags.Some? && Trim(tags.value) != [] then ["--tags", Trim(tags.value)] else []
  }

  /** StringUtils.countMatches(s, "."). */
  function CountDots(s: string): nat
  {
    multiset(s)['.']
  }

  /** Lines 566-571: the project parameter counts only with more than three dots. */
  function EnvProject(value: Option<string>): (r: Option<string>)
    ensures r.Some? <==> value.Some? && CountDots(value.value) > 3
    ensures r.Some? ==> r == value
  {
    if value.Some? && 3 < CountDots(value.value) then value else None
  }

  /** Lines 573-574: the first token with slashes and backslashes as dots, split at the dots. */
  function ProjectParts(firstScenario: string): (r: seq<string>)
    ensures forall i :: 0 <= i < |r| ==> '.' !in r[i]
  {
    Split(ReplaceChar(ReplaceChar(firstScenario, '/', '.'), '\\', '.'), '.')
  }

  /** Lines 575-580: the first part equal to "db", or 0 when there is none. */
  function DbIndex(parts: seq<string>): (c: nat)
    ensures (c < |parts| && parts[c] == "db" && "db" !in parts[..c]) || (c == 0 && "db" !in parts)
  {
    if parts == [] then 0
    else if parts[0] == "db" then 0
    else
      var c := DbIndex(parts[1..]);
      if "db" in parts[1..] then
        assert parts[..c + 1] == [parts[0]] + parts[1..][..c];
        c + 1
      else
        assert parts == [parts[0]] + parts[1..];
        0
  }

  /** How main ends when it does not hand an argument list to Cucumber. */
  datatype MainFailure =
    | TimeoutNotNumeric           // Integer.parseInt on the timeout parameter
    | ScenarioCutBeforeStart      // getFeatureScenarios: substring with end < start
    | ScenarioScanHangs           // getFeatureScenarios: the scan appends "" until OutOfMemoryError
    | FeatureTokenHasNoPath       // getFeatureScenarios: featureInfo[0] on an empty split
    | ProjectPartsMissing         // fewer than six parts from the "db" part on
    | DriverInitFailed            // getWebDriver: driver or proxy creation threw
    | ProxyPortsTaken             // initProxyServer: no port from 7000 to 7009 started, System.exit(-1)
    | BrowserGaveUp               // getWebDriver: System.exit(-1) after two failed attempts

  /** Lines 581-588: six parts from the "db" part on, joined with dots; nothing when there are no parts. */
  function DerivedProject(firstScenario: string): Result<Option<string>, MainFailure>
  {
    var parts := ProjectParts(firstScenario);
    var c := DbIndex(parts);
    if c == |parts| then Ok(None)
    else if c + 5 >= |parts| then Err(ProjectPartsMissing)
    else Ok(Some(Join(parts[c..c + 6], ".")))
  }

  /** Lines 565-588. */
  function Project(value: Option<string>, firstScenario: string): Result<Option<string>, MainFailure>
  {
    if EnvProject(value).Some? then Ok(EnvProject(value)) else DerivedProject(firstScenario)
  }

  /** Lines 572-588 with the search for "db" as the loop main runs. */
  method DeriveProject(firstScenario: string) returns (r: Result<Option<string>, MainFailure>)
    ensures r == DerivedProject(firstScenario)
  {
    var projectPath := ReplaceChar(ReplaceChar(firstScenario, '/', '.'), '\\', '.');
    var parts := Split(projectPath, '.');
    assert parts == ProjectParts(firstScenario);
    var comIndex := FindDbPart(parts);
    if comIndex != |parts| {
      if comIndex + 5 >= |parts| {
        return Err(ProjectPartsMissing);
      }
      var six := parts[comIndex..comIndex + 6];
      JoinSix(six);
      assert six[0] == parts[comIndex] && six[1] == parts[comIndex + 1] && six[2] == parts[comIndex + 2];
      assert six[3] == parts[comIndex + 3] && six[4] == parts[comIndex + 4] && six[5] == parts[comIndex + 5];
      return Ok(Some(parts[comIndex] + "." + parts[comIndex + 1] + "." + parts[comIndex + 2] + "." +
        parts[comIndex + 3] + "." + parts[comIndex + 4] + "." + parts[comIndex + 5]));
    }
    return Ok(None);
  }

  /** Lines 575-580: the for loop that stops at the first "db" part. */
  method FindDbPart(parts: seq<string>) returns (comIndex: nat)
    ensures comIndex == DbIndex(parts)
  {
    comIndex := 0;
    var i := 0;
    while i < |parts|
      invariant 0 <= i <= |parts|
      invariant "db" !in parts[..i]
      invariant comIndex == 0
    {
      if parts[i] == "db" {
        comIndex := i;
        break;
      }
      assert parts[..i + 1] == parts[..i] + [parts[i]];
      i := i + 1;
    }
    if i == |parts| {
      assert parts[..i] == parts;
    }
  }

  /** The six-part concatenation main writes out is the join of those parts. */
  lemma JoinSix(xs: seq<string>)
    requires |xs| == 6
    ensures Join(xs, ".") == xs[0] + "." + xs[1] + "." + xs[2] + "." + xs[3] + "." + xs[4] + "." + xs[5]
  {
    var k := 1;
    while k < 6
      invariant 1 <= k <= 6
      invariant Join(xs[..k], ".") == JoinedPrefix(xs, k)
    {
      assert xs[..k + 1] == xs[..k] + [xs[k]];
      JoinSnoc(xs[..k], xs[k], ".");
      k := k + 1;
    }
    assert xs[..6] == xs;
    assert JoinedPrefix(xs, 2) == xs[0] + "." + xs[1];
    assert JoinedPrefix(xs, 3) == xs[0] + "." + xs[1] + "." + xs[2];
    assert JoinedPrefix(xs, 4) == xs[0] + "." + xs[1] + "." + xs[2] + "." + xs[3];
    assert JoinedPrefix(xs, 5) == xs[0] + "." + xs[1] + "." + xs[2] + "." + xs[3] + "." + xs[4];
  }

  /** The left-to-right concatenation `xs[0] + "." + ... + xs[k - 1]` as main writes it. */
  function JoinedPrefix(xs: seq<string>, k: nat): string
    requires 1 <= k <= |xs|
  {
    if k == 1 then xs[0] else JoinedPrefix(xs, k - 1) + "." + xs[k - 1]
  }

  lemma {:induction false} JoinDots(xs: seq<string>)
    requires xs != [] && forall i :: 0 <= i < |xs| ==> '.' !in xs[i]
    ensures CountDots(Join(xs, ".")) == |xs| - 1
  {
    if |xs| > 1 {
      JoinDots(xs[1..]);
      assert multiset(xs[0] + "." + Join(xs[1..], ".")) == multiset(xs[0]) + multiset(".") + multiset(Join(xs[1..], "."));
    }
  }

  /**
    A project is always a name with at least four dots: a parameter with more
    than three, or six dot-free parts joined, which has exactly five.
   */
  lemma ProjectDots(value: Option<string>, firstScenario: string)
    ensures Project(value, firstScenario).Ok? && Project(value, firstScenario).value.Some? ==>
      CountDots(Project(value, firstScenario).value.value) > 3
    ensures EnvProject(value).None? && DerivedProject(firstScenario).Ok? && DerivedProject(firstScenario).value.Some? ==>
      CountDots(DerivedProject(firstScenario).value.value) == 5
  {
    DerivedDots(firstScenario);
  }

  /** A derived project is six dot-free parts joined by dots. */
  lemma DerivedDots(firstScenario: string)
    ensures var d := DerivedProject(firstScenario); d.Ok? && d.value.Some? ==> CountDots(d.value.value) == 5
  {
    var parts := ProjectParts(firstScenario);
    var c := DbIndex(parts);
    if c != |parts| && c + 5 < |parts| {
      var xs := parts[c..c + 6];
      assert DerivedProject(firstScenario) == Ok(Some(Join(xs, ".")));
      forall i | 0 <= i < |xs| ensures '.' !in xs[i] {
        assert xs[i] == parts[c + i];
      }
      JoinDots(xs);
    }
  }

  /**
    Without a project parameter, main fails unless the first token has six
    parts from its "db" part (or from its start) on; with no token at all it fails.
   */
  lemma ProjectNeedsSixParts(firstScenario: string)
    ensures DerivedProject(firstScenario).Ok? && DerivedProject(firstScenario).value.Some? ==>
      |ProjectParts(firstScenario)| >= DbIndex(ProjectParts(firstScenario)) + 6
    ensures DerivedProject("") == Err(ProjectPartsMissing)
  {
    assert ProjectParts("") == [""];
  }

  /** Lines 596-600: an entry that is not an existing file is taken relative to the workspace. */
  function Prefixed(value: string, workspace: string, fileExists: string -> bool): string
  {
    if fileExists(value) then value else workspace + "/" + value
  }

  /** Where the first "--tags" stands, or the length when there is none. */
  function TagsCut(args: seq<string>): (r: nat)
    ensures r <= |args| && "--tags" !in args[..r]
    ensures r < |args| ==> args[r] == "--tags"
  {
    if args == [] then 0
    else if args[0] == "--tags" then 0
    else
      var r := TagsCut(args[1..]);
      assert args[..r + 1] == [args[0]] + args[1..][..r];
      r + 1
  }

  /** Lines 592-601: every argument before the first "--tags" is prefixed. */
  function PrefixUntilTags(args: seq<string>, workspace: string, fileExists: string -> bool): seq<string>
  {
    if args == [] then []
    else if args[0] == "--tags" then args
    else [Prefixed(args[0], workspace, fileExists)] + PrefixUntilTags(args[1..], workspace, fileExists)
  }

  /** Entries before the first "--tags" are resolved against the workspace; the rest are left as they are. */
  lemma {:induction false} PrefixUntilTagsSpec(args: seq<string>, workspace: string, fileExists: string -> bool)
    ensures var r := PrefixUntilTags(args, workspace, fileExists);
      |r| == |args| &&
      forall i :: 0 <= i < |args| ==>
        r[i] == if i < TagsCut(args) then Prefixed(args[i], workspace, fileExists) else args[i]
  {
    if args != [] && args[0] != "--tags" {
      PrefixUntilTagsSpec(args[1..], workspace, fileExists);
    }
  }

  /** Lines 592-601, the loop as main runs it. */
  method PrefixWorkspace(featureScenarios: seq<string>, workspace: string, fileExists: string -> bool)
    returns (r: seq<string>)
    ensures workspace != [] ==> r == PrefixUntilTags(featureScenarios, workspace, fileExists)
    ensures workspace == [] ==> r == featureScenarios
  {
    r := featureScenarios;
    if workspace != [] {
      var i := 0;
      while i < |r|
        invariant 0 <= i <= |r| == |featureScenarios|
        invariant "--tags" !in featureScenarios[..i]
        invariant forall j :: 0 <= j < i ==> r[j] == Prefixed(featureScenarios[j], workspace, fileExists)
        invariant forall j :: i <= j < |r| ==> r[j] == featureScenarios[j]
      {
        var value := r[i];
        if value == "--tags" {
          break;
        }
        if !fileExists(value) {
          value := workspace + "/" + value;
        }
        r := r[i := value];
        assert featureScenarios[..i + 1] == featureScenarios[..i] + [featureScenarios[i]];
        i := i + 1;
      }
      PrefixUntilTagsSpec(featureScenarios, workspace, fileExists);
      assert i == TagsCut(featureScenarios) by {
        if i == |r| {
          assert featureScenarios[..i] == featureScenarios;
        }
      }
    }
  }

  /** Lines 604-613: the glue packages and the report plugin. */
  function GluePart(project: Option<string>): (r: seq<string>)
    ensures |r| >= 4 && r[0] == "--glue" && r[|r| - 3..] == ["db.shared.steps", "--plugin", "html:logs"]
    ensures project.Some? <==> |r| == 6
    ensures project.Some? ==> r[1] == project.value && r[2] == "--glue"
  {
    ["--glue"] + (if project.Some? then [project.value, "--glue"] else []) + ["db.shared.steps", "--plugin", "html:logs"]
  }

  /** Lines 556-613: the whole argument list from the plan. */
  function Arguments(
    plan: seq<string>, tags: Option<string>, project: Option<string>,
    workspace: string, fileExists: string -> bool): seq<string>
  {
    var withTags := plan + TagsPart(tags);
    (if workspace != [] then PrefixUntilTags(withTags, workspace, fileExists) else withTags) + GluePart(project)
  }

  /** Prefixing runs through a first part free of "--tags" and carries on into the rest. */
  lemma {:induction false} PrefixAppend(a: seq<string>, b: seq<string>, workspace: string, fileExists: string -> bool)
    requires "--tags" !in a
    ensures PrefixUntilTags(a + b, workspace, fileExists) ==
      PrefixUntilTags(a, workspace, fileExists) + PrefixUntilTags(b, workspace, fileExists)
  {
    if a != [] {
      assert (a + b)[1..] == a[1..] + b;
      assert a[0] in a && (a + b)[0] == a[0];
      assert "--tags" !in a[1..] by {
        forall x | x in a[1..] ensures x in a { }
      }
      PrefixAppend(a[1..], b, workspace, fileExists);
      var head := [Prefixed(a[0], workspace, fileExists)];
      assert PrefixUntilTags(a, workspace, fileExists) == head + PrefixUntilTags(a[1..], workspace, fileExists);
      assert PrefixUntilTags(a + b, workspace, fileExists) ==
        head + (PrefixUntilTags(a[1..], workspace, fileExists) + PrefixUntilTags(b, workspace, fileExists));
    } else {
      assert a + b == b;
    }
  }

  /**
    With a workspace and a plan free of "--tags": the plan entries are
    resolved, the tags follow untouched, then the glue and plugin arguments.
   */
  lemma ArgumentsLayout(
    plan: seq<string>, tags: Option<string>, project: Option<string>,
    workspace: string, fileExists: string -> bool)
    requires workspace != [] && "--tags" !in plan
    ensures var args := Arguments(plan, tags, project, workspace, fileExists);
      var n := |plan| + |TagsPart(tags)|;
      |args| == n + |GluePart(project)| &&
      (forall i :: 0 <= i < |plan| ==> args[i] == Prefixed(plan[i], workspace, fileExists)) &&
      args[|plan|..n] == TagsPart(tags) &&
      args[n..] == GluePart(project)
  {
    var tagsPart := TagsPart(tags);
    PrefixAppend(plan, tagsPart, workspace, fileExists);
    assert PrefixUntilTags(tagsPart, workspace, fileExists) == tagsPart;
    PrefixUntilTagsSpec(plan, workspace, fileExists);
    var p := PrefixUntilTags(plan, workspace, fileExists);
    assert TagsCut(plan) == |plan|;
    assert Arguments(plan, tags, project, workspace, fileExists) == p + tagsPart + GluePart(project);
  }
}
