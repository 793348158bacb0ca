# MainRunner in Dafny

A model of the launcher `MainRunner` of a Cucumber/Selenium test framework.
The model covers the part that decides which argument list the Cucumber
command line receives, and the small state machines around the WebDriver.

- **Parameter lookup** (`getExParams`): an environment variable wins. Otherwise
  the value comes from the URL-decoded `ex_params` string. That string is
  masked so spaces inside double quotes do not separate tokens, split at
  spaces, and searched for the first `name=` token (module `Params`; the
  masking is an in-place method over a `char` array).
- **Small decisions of `main`**: workspace normalisation, `DEBUG`,
  `tag_collection`, the timeout and the default browser version (module
  `Settings`).
- **The scenario scan** of `getFeatureScenarios`. It cuts the `scenarios`
  parameter at the first space after each `.feature:` marker. The loop can
  end normally, throw, or never end. All three outcomes are modelled and
  characterised (module `ScenarioScan`).
- **The scenario list and the feature index**: sorting (module `StringOrder`),
  the regex split at `.feature:`, the feature path and line, and
  `findScenario`/`putIfAbsent` on the static `features` map. The map is a
  class with a `map` field (module `FeatureIndex`).
- **The argument list built in `main`**: grouping by the last colon, the plan
  in HashMap order, `--tags`, the project derivation, the workspace prefix
  that stops at `--tags`, and the glue and plugin arguments (module
  `RunPlan`). Module `MainFlow` puts them in order, from the parameters to the
  final list or to the failure that ends `main`.
- **Driver bookkeeping**: the IE authentication time window, the URL history,
  the proxy port scan over 7000..7009, the two-attempt driver start, and the
  Chrome popup test. The static fields are a class (module `DriverSession`).

Foreign calls are parameters of the model:
- the clock;
- `File.exists`;
- `Utils.parseInt` and `Integer.parseInt`;
- the Gherkin parser's output;
- the exit code of the IE helper;
- the URL the driver reports;
- whether a proxy port starts;
- whether driver creation and the window resize succeed.

## Model

| member | source | states |
|---|---|---|
| Params.Mask | src/db/framework/runner/MainRunner.java:234-252 | masking keeps the length and changes only spaces, each into `\|` |
| Params.InsideQuotesParity | src/db/framework/runner/MainRunner.java:237-245 | the quote state the loop tracks, flipped at each double quote, is inside exactly when an odd number of quotes precede |
| Params.MaskQuotedSpaces | src/db/framework/runner/MainRunner.java:234-252 | the nested index loops over the StringBuilder leave exactly the masked string: a space becomes `\|` iff an odd number of quotes precede it, so an unclosed quote masks to the end |
| Params.MaskQuotedStretch | src/db/framework/runner/MainRunner.java:240-250 | the inner loop masks up to the closing quote and resets qindex there; without a closing quote it masks to the end and qindex stays set |
| Params.GetExParams | src/db/framework/runner/MainRunner.java:226-264 | an environment value is returned verbatim without consulting `ex_params`; with neither source the result is null; otherwise it is the override lookup |
| Params.MaskKeepsQuoteCount | src/db/framework/runner/MainRunner.java:234-252 | masking keeps the number of quotes in every prefix, so it does not move quoted stretches |
| Params.MaskIdempotent | src/db/framework/runner/MainRunner.java:234-252 | masking a masked string changes nothing |
| Params.MaskQuoteFreePrefix | src/db/framework/runner/MainRunner.java:235-239 | text before the first quote is never masked |
| Params.FirstValueClean | src/db/framework/runner/MainRunner.java:255-258 | a value found in the tokens holds no `"`, no `\|` and no `=` |
| Params.ValuePartClean | src/db/framework/runner/MainRunner.java:257 | the trim, unmask and unquote chain on a piece without `=` leaves no `"`, `\|` or `=` |
| Params.OverrideValueClean | src/db/framework/runner/MainRunner.java:230-263 | a value taken from `ex_params` holds no `"`, no `\|` and no `=` |
| Params.MaskQuotedToken | src/db/framework/runner/MainRunner.java:234-252 | in `name="v"` exactly the spaces of v are masked |
| Params.UnmaskSpaces | src/db/framework/runner/MainRunner.java:257 | turning `\|` back into spaces restores the quoted value |
| Params.DropQuotes | src/db/framework/runner/MainRunner.java:257 | removing every `"` from `"v"` gives v |
| Params.TrimQuoted | src/db/framework/runner/MainRunner.java:257 | trimming leaves a quoted value alone |
| Params.UnmaskQuoted | src/db/framework/runner/MainRunner.java:257 | the trim, unmask and unquote chain inverts the masking of a quoted value |
| Params.TokenValueQuoted | src/db/framework/runner/MainRunner.java:256-257 | the masked token `name="v"` yields v |
| Params.QuotedValueRoundTrip | src/db/framework/runner/MainRunner.java:230-263 | `ex_params` = `name="v"` with spaces in v gives back v exactly |
| Params.TagsExample | src/db/framework/runner/MainRunner.java:230-263 | `tags="smoke and ui"` yields `smoke and ui` |
| Params.EmptyValueShadows | src/db/framework/runner/MainRunner.java:256-262 | a first matching token with nothing after `=` makes `split("=")[1]` throw, so the lookup is null whatever follows |
| Settings.NormalizeWorkspace | src/db/framework/runner/MainRunner.java:489-493 | the workspace has no backslash and ends in `/`; it is the parameter (or `.`) with `\` turned into `/`, kept as is when it already ends in `/`, else with one `/` added |
| Settings.NormalizeWorkspaceIdempotent | src/db/framework/runner/MainRunner.java:489-493 | normalising a normalised workspace changes nothing |
| Settings.MatchesAlternativesMembership | src/db/framework/runner/MainRunner.java:149 | a full match of a pattern of literal alternatives is membership in them |
| Settings.IsDebug | src/db/framework/runner/MainRunner.java:147-150 | debug is on iff DEBUG is exactly `t` or `true` |
| Settings.TagCollection | src/db/framework/runner/MainRunner.java:512-515 | on iff the value is present and lower-cases, letter by letter, to `true` |
| Settings.TagCollectionIgnoresCase | src/db/framework/runner/MainRunner.java:511-515 | tag collection ignores letter case |
| Settings.UpperTrueDiffers | src/db/framework/runner/MainRunner.java:147-150 | `TRUE` turns tag collection on but not debug mode |
| Settings.UpdateTimeout | src/db/framework/runner/MainRunner.java:520-526 | an unset value keeps the timeout; an unparsable value fails (`Integer.parseInt` throws out of main); a positive parsed value becomes the timeout; a parsed value of 0 or less keeps it |
| Settings.UpdateTimeoutStable | src/db/framework/runner/MainRunner.java:520-526 | a positive timeout stays positive, and applying the same value twice is applying it once |
| Settings.DefaultBrowserVersion | src/db/framework/runner/MainRunner.java:412-439 | the version is one of the listed constants for each browser; Safari gets `0` iff the remote OS names none of 10.8 to 10.11 |
| Settings.DefaultVersionOnlySafariUsesOS | src/db/framework/runner/MainRunner.java:412-439 | only Safari depends on the remote OS |
| Settings.MainSafariDefault | src/db/framework/runner/MainRunner.java:497-503 | with the default remote OS `Windows 7`, Safari defaults to `0` |
| ScenarioScan.NextMarker | src/db/framework/runner/MainRunner.java:286 | the first `.feature:` at or after the start, or -1 when there is none |
| ScenarioScan.CutAfter | src/db/framework/runner/MainRunner.java:279-281 | the first space at or after the position, where a negative position searches from 0; the length when there is none |
| ScenarioScan.ScanScenarios | src/db/framework/runner/MainRunner.java:272-287 | the while loop over `i` and `end` yields the scan's outcome: the tokens, the substring exception, or no end |
| ScenarioScan.MarkedRun | src/db/framework/runner/MainRunner.java:278-287 | from any cut before the last marker, the scan reaches the cut after the last marker with the same fate |
| ScenarioScan.UnmarkedCut | src/db/framework/runner/MainRunner.java:279-285 | at a space with no marker ahead, the scan hangs iff no space precedes it and throws iff one does |
| ScenarioScan.ScanOutcomeCharacterised | src/db/framework/runner/MainRunner.java:275-287 | with L the last marker: the scan ends iff no space follows L; it hangs iff a space follows L and none precedes it; it throws iff spaces lie on both sides |
| ScenarioScan.UnmarkedOutcome | src/db/framework/runner/MainRunner.java:277-287 | without any marker, a list with a space hangs and one without a space is one token |
| ScenarioScan.MarkedOutcome | src/db/framework/runner/MainRunner.java:277-287 | the characterisation when a marker exists |
| ScenarioScan.LastCutOutcome | src/db/framework/runner/MainRunner.java:278-287 | the fate of the scan from the cut after the last marker |
| ScenarioScan.FinalCut | src/db/framework/runner/MainRunner.java:279-286 | a space after the last marker hangs the scan or throws, depending on a space before the marker |
| ScenarioScan.TrimKeepsMarker | src/db/framework/runner/MainRunner.java:282 | trimming keeps a marker inside a token |
| ScenarioScan.TokenKeepsMarker | src/db/framework/runner/MainRunner.java:282 | a token cut after a marker holds that marker |
| ScenarioScan.MarkedTokens | src/db/framework/runner/MainRunner.java:278-287 | every scanned token from a marked start holds a marker |
| ScenarioScan.ScannedTokensAreMarked | src/db/framework/runner/MainRunner.java:275-287 | when the list has a marker and the scan ends, every token holds `.feature:` |
| ScenarioScan.FixedPiecesConcat | src/db/framework/runner/MainRunner.java:276-287 | the corrected scan always ends, and its pieces put together are the input: no text is lost |
| ScenarioScan.FixedAgreesWhenScanned | src/db/framework/runner/MainRunner.java:276-287 | where the loop as written ends, the corrected scan gives the same tokens |
| ScenarioScan.FixedScanAgrees | src/db/framework/runner/MainRunner.java:275-287 | the corrected scan agrees with the source on every list the source handles |
| ScenarioScan.ScanCutExample | src/db/framework/runner/MainRunner.java:277-282 | `a/b.feature:10 a/b.feature:20 c/d.feature` makes the loop call `substring` with end < start |
| StringOrder.StrLeReflexive | src/db/framework/runner/MainRunner.java:289 | compareTo order: every string is at most itself |
| StringOrder.StrLeTotal | src/db/framework/runner/MainRunner.java:289 | any two strings are comparable |
| StringOrder.StrLeTransitive | src/db/framework/runner/MainRunner.java:289 | the order is transitive |
| StringOrder.StrLeAntisymmetric | src/db/framework/runner/MainRunner.java:289 | strings at most each other are equal |
| StringOrder.Insert | src/db/framework/runner/MainRunner.java:289 | insertion keeps a list sorted and adds exactly the new string |
| StringOrder.Sort | src/db/framework/runner/MainRunner.java:289 | `Collections.sort` gives a sorted permutation |
| StringOrder.SortedPermutationUnique | src/db/framework/runner/MainRunner.java:289 | two sorted permutations of each other are equal, so any sorting algorithm gives this result |
| StringOrder.SortIdempotent | src/db/framework/runner/MainRunner.java:289 | sorting a sorted list changes nothing |
| FeatureIndex.NextRegexMatch | src/db/framework/runner/MainRunner.java:295 | the first place the regex `.feature:` matches, where `.` is any character but a line terminator |
| FeatureIndex.FeaturePath | src/db/framework/runner/MainRunner.java:296-298 | the path always ends in `.feature`, and is unchanged when it already does |
| FeatureIndex.TokenTarget | src/db/framework/runner/MainRunner.java:295-301 | a token has a target iff the split leaves a first part; the path ends in `.feature`; the line is 0 unless the split gives exactly two parts |
| FeatureIndex.ResolvePath | src/db/framework/runner/MainRunner.java:303-307 | an existing file keeps its path; otherwise the path goes under the workspace |
| FeatureIndex.SplitTokenParts | src/db/framework/runner/MainRunner.java:295 | `p.feature:n` splits into p and n when n and p hold no colon after the marker |
| FeatureIndex.TokenRoundTrip | src/db/framework/runner/MainRunner.java:295-301 | the token built from a path and a line gives back that path with `.feature` and the parsed line |
| FeatureIndex.WildcardSplit | src/db/framework/runner/MainRunner.java:295 | the regex also splits `a_feature:5`, into `a` and `5` |
| FeatureIndex.BareMarkerFails | src/db/framework/runner/MainRunner.java:295-296 | the token `.feature:` splits into nothing, so `featureInfo[0]` throws |
| FeatureIndex.LineKey | src/db/framework/runner/MainRunner.java:635 | a line-0 key `path:l` extends the path and never equals it |
| FeatureIndex.FirstInCorrect | src/db/framework/runner/MainRunner.java:631-639 | an element is found iff one has the line, and then it is recorded with that line and the uri |
| FeatureIndex.FirstMatchCorrect | src/db/framework/runner/MainRunner.java:629-642 | a scenario is found iff some feature has an element on the line |
| FeatureIndex.RecordElementsKeys | src/db/framework/runner/MainRunner.java:631-637 | with line 0 the keys added are exactly `path:l` for the elements' lines; other keys keep their entries |
| FeatureIndex.RecordAllKeepsPath | src/db/framework/runner/MainRunner.java:629-637 | with line 0 the bare path is never written |
| FeatureIndex.IndexTokenPath | src/db/framework/runner/MainRunner.java:310-311 | after a token its path is in the map: the matching scenario when one exists for a line other than 0, otherwise the earlier entry or the 0 marker |
| FeatureIndex.IndexTokenWithLineLocal | src/db/framework/runner/MainRunner.java:310-311 | a token with a line changes no key but its path |
| FeatureIndex.ScenarioIndex.constructor | src/db/framework/runner/MainRunner.java:72 | the map starts empty |
| FeatureIndex.ScenarioIndex.FindScenario | src/db/framework/runner/MainRunner.java:628-643 | true iff the line is not 0 and some element has it; the map is updated as recording the elements prescribes |
| FeatureIndex.ScenarioIndex.FindInFeature | src/db/framework/runner/MainRunner.java:630-640 | the loop over one feature's elements: with line 0 it records every element under `path:l` and finds nothing; otherwise it stops at the first element on the line, recorded under the bare path, and changes nothing when none is |
| FeatureIndex.ScenarioIndex.PutIfAbsent | src/db/framework/runner/MainRunner.java:311 | an existing entry is never overwritten |
| FeatureIndex.ScenarioIndex.GetFeatureScenarios | src/db/framework/runner/MainRunner.java:271-314 | returns the specified list or failure, and the map is every token indexed in sorted order |
| FeatureIndex.FirstBadToken | src/db/framework/runner/MainRunner.java:294-296 | the first token whose split is empty, or -1 when every token has a path |
| FeatureIndex.FeatureScenariosShape | src/db/framework/runner/MainRunner.java:271-314 | a returned list is a sorted permutation of the scanned tokens, each with a path; a path failure names a scanned token without one |
| FeatureIndex.IndexTokensRegisters | src/db/framework/runner/MainRunner.java:294-312 | every token's resolved path ends up in the map |
| FeatureIndex.IndexTokensGrow | src/db/framework/runner/MainRunner.java:294-312 | indexing never removes a key |
| FeatureIndex.IndexTokenGrows | src/db/framework/runner/MainRunner.java:310-311 | one token never removes a key |
| FeatureIndex.RecordAllGrows | src/db/framework/runner/MainRunner.java:629-641 | recording elements never removes a key |
| RunPlan.GroupLines | src/db/framework/runner/MainRunner.java:535-546 | each key holds exactly the lines of its tokens, in token order with duplicates; a key is present iff it has a line |
| RunPlan.LinesForNonEmpty | src/db/framework/runner/MainRunner.java:536-538 | a key has lines iff some token with a colon has that key |
| RunPlan.GroupKeys | src/db/framework/runner/MainRunner.java:535-546 | the keys are the trimmed prefixes before the last colon of the tokens that have a colon |
| RunPlan.GroupEmpty | src/db/framework/runner/MainRunner.java:537-538 | the grouping is empty iff no token holds a colon |
| RunPlan.LastColonSplit | src/db/framework/runner/MainRunner.java:536-540 | `p:n` with a colon-free n splits into the trimmed p and n |
| RunPlan.GroupSnoc | src/db/framework/runner/MainRunner.java:541-546 | a further token appends its line to its key's list |
| RunPlan.GroupOneFile | src/db/framework/runner/MainRunner.java:535-546 | the tokens of one file become one key with all their lines in order |
| RunPlan.GroupScenarios | src/db/framework/runner/MainRunner.java:533-546 | the loop over the tokens builds the grouping |
| RunPlan.Entry | src/db/framework/runner/MainRunner.java:551-552 | an entry starts with its key followed by a colon |
| RunPlan.Entries | src/db/framework/runner/MainRunner.java:550-552 | one entry per key in the given order |
| RunPlan.PlanShape | src/db/framework/runner/MainRunner.java:533-554 | without a colon anywhere the plan is the first token alone; otherwise it has one `key:l1:...:ln` entry per key, in any order |
| RunPlan.GroupPlan | src/db/framework/runner/MainRunner.java:533-554 | the plan follows some iteration order of the key set, each key once |
| RunPlan.TagsPart | src/db/framework/runner/MainRunner.java:558-565 | `--tags` and the trimmed tags are added iff the trimmed tags are not empty |
| RunPlan.EnvProject | src/db/framework/runner/MainRunner.java:567-572 | the project parameter counts iff it has more than three dots |
| RunPlan.ProjectParts | src/db/framework/runner/MainRunner.java:574-575 | no part holds a dot |
| RunPlan.DbIndex | src/db/framework/runner/MainRunner.java:576-580 | the index of the first `db` part, or 0 when there is none |
| RunPlan.FindDbPart | src/db/framework/runner/MainRunner.java:576-581 | the loop with its break leaves the index of the first `db` part, or 0 |
| RunPlan.DeriveProject | src/db/framework/runner/MainRunner.java:573-589 | the loop and the six-part concatenation give the derived project or the index failure |
| RunPlan.JoinSix | src/db/framework/runner/MainRunner.java:583-588 | the explicit concatenation is the join of six parts |
| RunPlan.JoinDots | src/db/framework/runner/MainRunner.java:583-588 | joining dot-free parts gives one dot fewer than parts |
| RunPlan.ProjectDots | src/db/framework/runner/MainRunner.java:567-589 | a project always has more than three dots, and a derived one exactly five |
| RunPlan.DerivedDots | src/db/framework/runner/MainRunner.java:582-588 | a derived project has exactly five dots |
| RunPlan.ProjectNeedsSixParts | src/db/framework/runner/MainRunner.java:573-589 | a derived project needs six parts from `db` on; an empty first scenario fails |
| RunPlan.PrefixUntilTagsSpec | src/db/framework/runner/MainRunner.java:594-602 | entries before the first `--tags` are resolved against the workspace, the rest are untouched |
| RunPlan.PrefixWorkspace | src/db/framework/runner/MainRunner.java:594-602 | the loop with its break resolves exactly the entries before `--tags` |
| RunPlan.PrefixAppend | src/db/framework/runner/MainRunner.java:594-602 | prefixing runs through a part without `--tags` and goes on into the next |
| RunPlan.GluePart | src/db/framework/runner/MainRunner.java:604-613 | `--glue`, then `project --glue` iff there is a project, then `db.shared.steps --plugin html:logs` |
| RunPlan.ArgumentsLayout | src/db/framework/runner/MainRunner.java:556-613 | the resolved plan entries, then the tags untouched, then the glue and plugin arguments |
| DriverSession.AuthCheck | src/db/framework/runner/MainRunner.java:666-683 | the helper runs iff within 10 s and wanted; the timestamp drops by exactly 10000 iff the helper exits 0; it rises, to now, iff more than an hour has passed |
| DriverSession.FirstCallOutsideWindow | src/db/framework/runner/MainRunner.java:139 | the initial timestamp keeps every call from load time on out of the window |
| DriverSession.WindowAfterReset | src/db/framework/runner/MainRunner.java:689-691 | within 10 s after `authenticationIeInit` the helper runs exactly when wanted |
| DriverSession.QuietAfterSuccess | src/db/framework/runner/MainRunner.java:673-676 | after a successful login no call within the hour runs the helper or moves the timestamp |
| DriverSession.HourlyReopen | src/db/framework/runner/MainRunner.java:678-681 | after an hour the timestamp becomes now, and the next 10 s run the helper again when wanted |
| DriverSession.PushUrl | src/db/framework/runner/MainRunner.java:178-185 | an empty history stays empty because `get(-1)` throws; otherwise the URL is appended iff it differs from the last one |
| DriverSession.PushUrlNoRepeats | src/db/framework/runner/MainRunner.java:181-182 | a history without immediate repeats keeps none |
| DriverSession.PushUrlIdempotent | src/db/framework/runner/MainRunner.java:181-182 | the same URL twice in a row is recorded once |
| DriverSession.HistoryShape | src/db/framework/runner/MainRunner.java:178-185 | the history only grows at its end, by at most one per visit, has no immediate repeats, and stays empty from empty |
| DriverSession.OpenPortFrom | src/db/framework/runner/MainRunner.java:451-464 | the first port of the range that starts, with all earlier ones failing; none only if all fail |
| DriverSession.ScanProxyPort | src/db/framework/runner/MainRunner.java:451-470 | the port loop finds the first port from 7000 to 7009 that starts, or none |
| DriverSession.AttemptFrom | src/db/framework/runner/MainRunner.java:190-214 | at most two attempts; success needs set-up and resize on that attempt after failed resizes only; a set-up failure is never retried; giving up means both resizes failed |
| DriverSession.CreatedWithoutProxy | src/db/framework/runner/MainRunner.java:190-214 | without a proxy, a driver results iff the first set-up works and one of the resizes does (a second set-up must also work); giving up iff both resizes fail |
| DriverSession.Session.constructor | src/db/framework/runner/MainRunner.java:123-139 | no driver, empty history, and the timestamp one window before load time |
| DriverSession.Session.AuthenticationIeInit | src/db/framework/runner/MainRunner.java:689-691 | the window opens now; nothing else changes |
| DriverSession.Session.GetCurrentUrl | src/db/framework/runner/MainRunner.java:662-684 | the timestamp and the helper call follow the window rule; the driver's URL is returned |
| DriverSession.Session.Acquire | src/db/framework/runner/MainRunner.java:190-217 | the retry loop gives the specified outcome; a driver exists afterwards iff some set-up succeeded |
| DriverSession.Session.GetWebDriver | src/db/framework/runner/MainRunner.java:177-218 | with a driver, the URL is recorded and the driver reused; without one, a driver is started |
| DriverSession.SiteOf | src/db/framework/runner/MainRunner.java:841-844 | removing the scheme and `www.` never lengthens the website, and a website with none of them is kept as is |
| DriverSession.SiteOfHttps | src/db/framework/runner/MainRunner.java:841-844 | `https://www.host` becomes host |
| DriverSession.SiteOfHttp | src/db/framework/runner/MainRunner.java:841-844 | `http://www.host` becomes host |
| DriverSession.SameSiteNotSuspected | src/db/framework/runner/MainRunner.java:850-856 | a page whose URL holds the website is never taken for the popup |
| DriverSession.NoWebsiteNeverSuspected | src/db/framework/runner/MainRunner.java:850-856 | with the website parameter set to the empty string the popup is never suspected, since every URL contains "" |
| MainFlow.Configure | src/db/framework/runner/MainRunner.java:489-526 | fails iff the timeout parameter is not a number; the timeout is positive; the workspace ends in `/`; the browser and version defaults |
| MainFlow.Assemble | src/db/framework/runner/MainRunner.java:556-613 | after the plan only the project derivation can fail |
| MainFlow.AssembleArguments | src/db/framework/runner/MainRunner.java:533-613 | the statements from grouping to glue build the specified list for some HashMap order |
| MainFlow.RunMain | src/db/framework/runner/MainRunner.java:487-613 | main's steps in order give the specified list or the failure that ends main |
| MainFlow.PlanHasNoTags | src/db/framework/runner/MainRunner.java:548-554 | no plan entry is `--tags` unless a scenario token is |
| MainFlow.MainLayout | src/db/framework/runner/MainRunner.java:533-613 | a list handed to Cucumber ends with `db.shared.steps --plugin html:logs` and starts with the plan entries resolved against the workspace |
| MainFlow.AssembleLayout | src/db/framework/runner/MainRunner.java:556-613 | an assembled list ends with the glue and plugin arguments and, without a `--tags` token, starts with the prefixed plan entries |
| MainFlow.MainWithoutScenarios | src/db/framework/runner/MainRunner.java:533-589 | with no scenarios and no usable project parameter, main fails deriving the project from "" |

## Left out

- Printing, `Utils.createDirectory`, `cucumber.api.cli.Main.run`, `close`, `driverQuit`, `resetDriver` and `System.exit`: these are I/O or process end. A System.exit path is a failure value.
- The `AuthenticationDialog` threads, the port-6999 lock and `ProcessWatchDog` (lines 727-884): these are concurrency and process control. Only the popup test of lines 841-856 is modelled.
- DriverSession.SiteOf: takes the website as a string. When the website parameter is unset, `url` is null (line 497), and `org_url.replace` at line 842 throws a NullPointerException in the popup helper thread before any URL is checked. That thread is not modelled.
- DriverSession.AttemptFrom: `InitThrew` is a set-up failure that escapes `initDriver`. Safari's three construction tries (lines 387-394) swallow their failures and leave the driver null. That case is `initOk` true with `resizeOk` false: `driver.manage()` throws inside the try at line 207, and the attempt is retried.
- `runIEMethod` and `runChromeMethod` (lines 693-723): only the IE helper's exit code is an input.
- Selenium capabilities and driver construction (lines 329-410), and the BrowserMob server's HAR and filters (lines 471-478). Whether set-up and resize succeed are inputs, per attempt.
- Gson, `Utils.gherkinTojson`, `File.exists`, `URLDecoder.decode`, `Utils.parseInt` and `Integer.parseInt`: their results are functions passed in. The Gherkin output is a list of features with already-parsed element lines and a uri.
- The clock: `System.currentTimeMillis` is a parameter.
- HashMap iteration order: the plan follows any listing of the key set, chosen freely.
- `Collections.sort` compares by UTF-16 code unit. The model compares characters, which is the same for text in the Basic Multilingual Plane.
- `getCurrentUrl` when the driver itself throws: the driver's URL is an input. The history update when that call throws is not modelled.
- The partially updated `features` map after `getFeatureScenarios` throws is not specified.
- DriverSession.ScanProxyPort: whether a port starts is a function of the attempt and the port, not of time.
- DriverSession.Session.Acquire: it requires that no driver exists, which is the only way `getWebDriver` reaches the loop. The proxy server object is not kept.
- A scan that keeps adding "" (the `EmptyForever` outcome) becomes the failure `ScanHangs`. The list grows until an OutOfMemoryError ends `main` before Cucumber runs. The model does not track memory.

Where the specification and the code disagree, the model follows the code:
- The plan is in HashMap order, not first-seen file order.
- Line numbers keep their duplicates.
- A token without `.feature:` is not accepted as a bare path. It is glued to the next marked token, or it hangs or breaks the scan.
- Failures abort `main` instead of skipping the token.

## Findings

| source | as written | input that shows it | evidently intended | confidence | as-written member | corrected member |
|---|---|---|---|---|---|---|
| src/db/framework/runner/MainRunner.java:277-286 | after the last marked token, `indexOf(' ', -1)` searches from 0, so `end` falls before `i`: `substring` throws, or an empty token is added forever | `a/b.feature:10 a/b.feature:20 c/d.feature` (the scan throws) | every word is kept and the scan ends | not executed | ScenarioScan.ScanCutExample | ScenarioScan.FixedPiecesConcat |

`ScenarioScan.FixedScan` is the corrected scan:
- `FixedPiecesConcat` proves that its pieces put together give back the list.
- `FixedScanAgrees` proves that it returns what the source returns whenever the source's loop ends.

`MainFlow` keeps the scan as written, because that is what `main` runs.
