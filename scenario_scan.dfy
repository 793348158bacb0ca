/**
  The first loop of MainRunner.getFeatureScenarios (lines 273-287): the
  trimmed `scenarios` parameter is cut into tokens. Each token runs from the
  previous cut to the first space at or after the next ".feature:" marker.
  When no marker is left, the code searches for a space from index 0, so the
  loop either ends, throws, or appends empty tokens for ever.
 */
module ScenarioScan {
  import opened Wrappers
  import opened JavaText

  const Marker: string := ".feature:"

  /** ".feature:" starts at k, spelled out character by character. */
  predicate MarkerAt(s: string, k: int)
  {
    0 <= k && k + |Marker| <= |s| &&
    s[k] == '.' && s[k + 1] == 'f' && s[k + 2] == 'e' && s[k + 3] == 'a' && s[k + 4] == 't' &&
    s[k + 5] == 'u' && s[k + 6] == 'r' && s[k + 7] == 'e' && s[k + 8] == ':'
  }

  lemma MarkerAtSlice(s: string, k: int)
    ensures MarkerAt(s, k) <==> 0 <= k && k + |Marker| <= |s| && s[k..k + |Marker|] == Marker
  {
    if 0 <= k && k + |Marker| <= |s| && s[k..k + |Marker|] == Marker {
      var m := s[k..k + |Marker|];
      assert m[0] == s[k] && m[1] == s[k + 1] && m[2] == s[k + 2] && m[3] == s[k + 3] && m[4] == s[k + 4];
      assert m[5] == s[k + 5] && m[6] == s[k + 6] && m[7] == s[k + 7] && m[8] == s[k + 8];
    }
  }

  /** String.indexOf(".feature:", from). */
  function NextMarker(s: string, from: nat): (r: int)
    decreases |s| - from
    ensures r == -1 || (from <= r && MarkerAt(s, r))
    ensures r == -1 ==> forall k :: from <= k ==> !MarkerAt(s, k)
    ensures r != -1 ==> forall k :: from <= k < r ==> !MarkerAt(s, k)
  {
    if from + |Marker| > |s| then -1
    else if MarkerAt(s, from) then from
    else NextMarker(s, from + 1)
  }

  /** Lines 279-281: `end = indexOf(' ', end)`, and the end of the string when there is no space. */
  function CutAfter(s: string, end: int): (r: int)
    ensures 0 <= r <= |s|
    ensures r < |s| ==> s[r] == ' ' && forall k :: 0 <= k < r && end <= k ==> s[k] != ' '
    ensures r == |s| ==> forall k :: 0 <= k < |s| && end <= k ==> s[k] != ' '
    ensures end <= r || (end < 0 && r < |s|) || (end > |s|)
  {
    var p := IndexOfChar(s, ' ', end);
    if p == -1 then |s| else p
  }

  /**
    How the loop ends: with its token list, by StringIndexOutOfBoundsException
    (a cut before the current start), or not by itself (a cut at the current
    start leaves every variable as it was while an empty token is appended,
    until the growing list throws OutOfMemoryError).
   */
  datatype ScanOutcome = Scanned(tokens: seq<string>) | CutBeforeStart | EmptyForever

  function Prepend(ts: seq<string>, o: ScanOutcome): ScanOutcome
  {
    if o.Scanned? then Scanned(ts + o.tokens) else o
  }

  /** The loop from a state where the current start is i and `end` holds the next marker from i. */
  function ScanFrom(s: string, i: nat): ScanOutcome
    requires i <= |s|
    decreases |s| - i
  {
    if i == |s| then Scanned([])
    else
      var e := CutAfter(s, NextMarker(s, i));
      if e < i then CutBeforeStart
      else if e == i then EmptyForever
      else Prepend([Trim(s[i..e])], ScanFrom(s, e))
  }

  /** One turn of the loop, when it cuts after its start. */
  lemma ScanStep(s: string, i: nat, e: nat)
    requires i < e <= |s| && e == CutAfter(s, NextMarker(s, i))
    ensures ScanFrom(s, i) == Prepend([Trim(s[i..e])], ScanFrom(s, e))
  {
  }

  lemma PrependTwice(a: seq<string>, b: seq<string>, o: ScanOutcome)
    ensures Prepend(a, Prepend(b, o)) == Prepend(a + b, o)
  {
    if o.Scanned? {
      assert a + (b + o.tokens) == a + b + o.tokens;
    }
  }

  /** One turn of the loop, seen from the tokens collected so far. */
  lemma ScanAdvance(s: string, i: nat, e: nat, done: seq<string>)
    requires i < e <= |s| && e == CutAfter(s, NextMarker(s, i))
    ensures Prepend(done, ScanFrom(s, i)) == Prepend(done + [Trim(s[i..e])], ScanFrom(s, e))
  {
    ScanStep(s, i, e);
    PrependTwice(done, [Trim(s[i..e])], ScanFrom(s, e));
  }

  /** A turn that cuts at or before its start ends the loop, whatever was collected. */
  lemma ScanHalts(s: string, i: nat, e: int, done: seq<string>)
    requires i < |s| && e == CutAfter(s, NextMarker(s, i)) && e <= i
    ensures Prepend(done, ScanFrom(s, i)) == if e < i then CutBeforeStart else EmptyForever
  {
  }

  /** A null `scenarios` gives the empty list; otherwise its trimmed text is scanned. */
  function Scan(scenarios: Option<string>): ScanOutcome
  {
    if scenarios.None? then Scanned([]) else ScanFrom(Trim(scenarios.value), 0)
  }

  /** Lines 272-287. */
  method ScanScenarios(scenarios: Option<string>) returns (r: ScanOutcome)
    ensures r == Scan(scenarios)
  {
    if scenarios.None? {
      return Scanned([]);
    }
    var s := Trim(scenarios.value);
    var scenarioList: seq<string> := [];
    var i := 0;
    var end := NextMarker(s, 0);
    while i < |s|
      invariant 0 <= i <= |s|
      invariant end == NextMarker(s, i)
      invariant ScanFrom(s, 0) == Prepend(scenarioList, ScanFrom(s, i))
      decreases |s| - i
    {
      ghost var marker := end;
      end := IndexOfChar(s, ' ', end);
      if end == -1 {
        end := |s|;
      }
      assert end == CutAfter(s, marker);
      if end < i {
        ScanHalts(s, i, end, scenarioList);
        return CutBeforeStart;
      }
      if end == i {
        ScanHalts(s, i, end, scenarioList);
        return EmptyForever;
      }
      var scenarioPath := Trim(s[i..end]);
      ScanAdvance(s, i, end, scenarioList);
      scenarioList := scenarioList + [scenarioPath];
      i := end;
      end := NextMarker(s, i);
    }
    assert scenarioList + [] == scenarioList;
    return Scanned(scenarioList);
  }

  /** The largest marker position at or below k, or -1. */
  function LastMarkerFrom(s: string, k: int): (r: int)
    decreases k
    ensures r == -1 || 0 <= r <= k
    ensures r == -1 ==> forall j :: j <= k ==> !MarkerAt(s, j)
    ensures r != -1 ==> MarkerAt(s, r) && forall j :: r < j <= k ==> !MarkerAt(s, j)
  {
    if k < 0 then -1 else if MarkerAt(s, k) then k else LastMarkerFrom(s, k - 1)
  }

  /** Where the last ".feature:" starts, or 0 when there is none. */
  function LastMarker(s: string): (r: nat)
    ensures r <= |s|
  {
    var m := LastMarkerFrom(s, |s|);
    if m == -1 then 0 else m
  }

  /** No space lies inside a marker, so the cut after a marker lies beyond it. */
  lemma CutPastMarker(s: string, m: int)
    requires MarkerAt(s, m)
    ensures CutAfter(s, m) >= m + |Marker|
  {
  }

  /**
    From a start with a marker ahead, the loop reaches the cut after the last
    marker, and ends there the way it ends from that cut.
   */
  lemma {:induction false} MarkedRun(s: string, i: nat)
    requires i < |s| && NextMarker(s, i) != -1
    requires LastMarkerFrom(s, |s|) != -1
    ensures var q := CutAfter(s, LastMarker(s));
      i < q &&
      (ScanFrom(s, i).Scanned? <==> ScanFrom(s, q).Scanned?) &&
      (ScanFrom(s, i).EmptyForever? <==> ScanFrom(s, q).EmptyForever?)
    decreases |s| - i
  {
    var m := NextMarker(s, i);
    var e := CutAfter(s, m);
    CutPastMarker(s, m);
    var L := LastMarker(s);
    assert m <= L;
    if NextMarker(s, e) == -1 {
      assert L < e;
      CutPastMarker(s, L);
      assert CutAfter(s, L) == e;
    } else {
      MarkedRun(s, e);
    }
  }

  /** From a cut with no marker after it, the loop searches for a space from index 0. */
  lemma UnmarkedCut(s: string, i: nat)
    requires i < |s| && s[i] == ' ' && NextMarker(s, i) == -1
    ensures ScanFrom(s, i).EmptyForever? <==> ' ' !in s[..i]
    ensures ScanFrom(s, i).CutBeforeStart? <==> ' ' in s[..i]
  {
    var e := CutAfter(s, -1);
    assert ' ' in s[..i] ==> e < i;
  }

  /**
    How the scan ends, with L the start of the last ".feature:" (0 when there
    is none): normally exactly when no space lies at or after L; for ever
    when one does but none lies before L; otherwise by an exception.
   */
  lemma ScanOutcomeCharacterised(raw: string)
    ensures var s := Trim(raw); var L := LastMarker(s);
      (Scan(Some(raw)).Scanned? <==> ' ' !in s[L..]) &&
      (Scan(Some(raw)).EmptyForever? <==> ' ' in s[L..] && ' ' !in s[..L]) &&
      (Scan(Some(raw)).CutBeforeStart? <==> ' ' in s[L..] && ' ' in s[..L])
  {
    var s := Trim(raw);
    if s != [] {
      assert s[0] != ' ';
      if LastMarkerFrom(s, |s|) != -1 {
        MarkedOutcome(s);
      } else {
        UnmarkedOutcome(s);
      }
    }
  }

  /** With no marker at all, the whole text is one token unless it holds a space. */
  lemma UnmarkedOutcome(s: string)
    requires s != [] && s[0] != ' ' && LastMarkerFrom(s, |s|) == -1
    ensures ScanFrom(s, 0).Scanned? <==> ' ' !in s
    ensures ScanFrom(s, 0).EmptyForever? <==> ' ' in s
    ensures !ScanFrom(s, 0).CutBeforeStart?
  {
    assert NextMarker(s, 0) == -1;
    var e := CutAfter(s, -1);
    assert e < |s| ==> s[e] == ' ';
    assert e != 0;
    ScanStep(s, 0, e);
    if e < |s| {
      assert NextMarker(s, e) == -1;
      assert ' ' !in s[..e];
      assert s[e] == ' ';
      UnmarkedCut(s, e);
    } else {
      assert ' ' !in s;
      assert ScanFrom(s, e) == Scanned([]);
    }
  }

  /** With a marker, the scan ends as it ends from the cut after the last marker. */
  lemma MarkedOutcome(s: string)
    requires s != [] && s[0] != ' ' && LastMarkerFrom(s, |s|) != -1
    ensures var L := LastMarker(s);
      (ScanFrom(s, 0).Scanned? <==> ' ' !in s[L..]) &&
      (ScanFrom(s, 0).EmptyForever? <==> ' ' in s[L..] && ' ' !in s[..L]) &&
      (ScanFrom(s, 0).CutBeforeStart? <==> ' ' in s[L..] && ' ' in s[..L])
  {
    assert NextMarker(s, 0) != -1;
    MarkedRun(s, 0);
    LastCutOutcome(s);
  }

  /** How the loop ends from the cut after the last marker. */
  lemma LastCutOutcome(s: string)
    requires LastMarkerFrom(s, |s|) != -1
    ensures var L := LastMarker(s); var q := CutAfter(s, L);
      (ScanFrom(s, q).Scanned? <==> ' ' !in s[L..]) &&
      (ScanFrom(s, q).EmptyForever? <==> ' ' in s[L..] && ' ' !in s[..L]) &&
      (ScanFrom(s, q).CutBeforeStart? <==> ' ' in s[L..] && ' ' in s[..L])
  {
    var L := LastMarker(s);
    var q := CutAfter(s, L);
    CutPastMarker(s, L);
    if q < |s| {
      assert s[L..][q - L] == ' ';
      FinalCut(s);
    } else {
      assert ' ' !in s[L..];
    }
  }

  /** From the cut after the last marker the loop searches for a space from index 0. */
  lemma FinalCut(s: string)
    requires LastMarkerFrom(s, |s|) != -1
    requires CutAfter(s, LastMarker(s)) < |s|
    ensures var q := CutAfter(s, LastMarker(s));
      (ScanFrom(s, q).EmptyForever? <==> ' ' !in s[..LastMarker(s)]) &&
      (ScanFrom(s, q).CutBeforeStart? <==> ' ' in s[..LastMarker(s)])
  {
    var L := LastMarker(s);
    var q := CutAfter(s, L);
    CutPastMarker(s, L);
    UnmarkedCut(s, q);
    assert ' ' in s[..q] <==> ' ' in s[..L] by {
      if ' ' in s[..q] {
        var k :| 0 <= k < q && s[k] == ' ';
        assert k < L && s[..L][k] == ' ';
      }
      if ' ' in s[..L] {
        var k :| 0 <= k < L && s[k] == ' ';
        assert s[..q][k] == ' ';
      }
    }
  }

  /** The marker survives trim: it starts and ends with characters trim() keeps. */
  lemma TrimKeepsMarker(x: string, a: nat)
    requires MarkerAt(x, a)
    ensures MarkerAt(Trim(x), a - TrimOffset(x))
  {
    TrimKeepsInner(x, a, a + |Marker|);
  }

  /** A token cut after a marker keeps that marker. */
  lemma TokenKeepsMarker(s: string, i: nat)
    requires i < |s| && NextMarker(s, i) != -1
    ensures CutAfter(s, NextMarker(s, i)) <= |s|
    ensures NextMarker(Trim(s[i..CutAfter(s, NextMarker(s, i))]), 0) != -1
  {
    var m := NextMarker(s, i);
    var e := CutAfter(s, m);
    CutPastMarker(s, m);
    var x := s[i..e];
    assert MarkerAt(x, m - i);
    TrimKeepsMarker(x, m - i);
  }

  /** When the scan ends normally from a start with a marker ahead, every token carries a marker. */
  lemma {:induction false} MarkedTokens(s: string, i: nat)
    requires i <= |s| && ScanFrom(s, i).Scanned?
    requires i < |s| ==> NextMarker(s, i) != -1
    ensures forall t :: t in ScanFrom(s, i).tokens ==> NextMarker(t, 0) != -1
    decreases |s| - i
  {
    if i < |s| {
      var m := NextMarker(s, i);
      var e := CutAfter(s, m);
      CutPastMarker(s, m);
      ScanStep(s, i, e);
      TokenKeepsMarker(s, i);
      if e < |s| {
        if NextMarker(s, e) == -1 {
          UnmarkedCut(s, e);
          assert false;
        }
        MarkedTokens(s, e);
      }
    }
  }

  /**
    Marker-less words are glued onto the next marked token: when the input
    holds a marker and the scan ends normally, every token holds a marker.
   */
  lemma ScannedTokensAreMarked(raw: string)
    requires LastMarkerFrom(Trim(raw), |Trim(raw)|) != -1 && Scan(Some(raw)).Scanned?
    ensures forall t :: t in Scan(Some(raw)).tokens ==> NextMarker(t, 0) != -1
  {
    var s := Trim(raw);
    assert NextMarker(s, 0) != -1;
    MarkedTokens(s, 0);
  }

  // ---------------------------------------------------------------------------
  // The loop as evidently intended: with no marker left, the rest is one token.
  // ---------------------------------------------------------------------------

  /** The untrimmed pieces the intended loop cuts from i on. */
  function FixedPieces(s: string, i: nat): (r: seq<string>)
    requires i <= |s|
    decreases |s| - i
  {
    if i == |s| then []
    else
      var m := NextMarker(s, i);
      var e := if m == -1 then |s| else (CutPastMarker(s, m); CutAfter(s, m));
      [s[i..e]] + FixedPieces(s, e)
  }

  function Concat(ps: seq<string>): string
  {
    if ps == [] then [] else ps[0] + Concat(ps[1..])
  }

  function TrimAll(ps: seq<string>): (r: seq<string>)
    ensures |r| == |ps| && forall k :: 0 <= k < |ps| ==> r[k] == Trim(ps[k])
  {
    if ps == [] then [] else [Trim(ps[0])] + TrimAll(ps[1..])
  }

  /** The intended scan: it always ends, with the trimmed pieces. */
  function FixedScan(scenarios: Option<string>): seq<string>
  {
    if scenarios.None? then [] else TrimAll(FixedPieces(Trim(scenarios.value), 0))
  }

  /** The intended pieces lose nothing: they concatenate back to the scanned text. */
  lemma {:induction false} FixedPiecesConcat(s: string, i: nat)
    requires i <= |s|
    ensures Concat(FixedPieces(s, i)) == s[i..]
    decreases |s| - i
  {
    if i < |s| {
      var m := NextMarker(s, i);
      var e := if m == -1 then |s| else CutAfter(s, m);
      if m != -1 {
        CutPastMarker(s, m);
      }
      SuffixSplit(s, i, e);
      var ps := FixedPieces(s, i);
      assert ps == [s[i..e]] + FixedPieces(s, e);
      assert ps[0] == s[i..e] && ps[1..] == FixedPieces(s, e);
      FixedPiecesConcat(s, e);
    }
  }

  /** Wherever the loop as written ends normally, the intended one gives the same tokens. */
  lemma {:induction false} FixedAgreesWhenScanned(s: string, i: nat)
    requires i <= |s| && ScanFrom(s, i).Scanned?
    requires i < |s| && NextMarker(s, i) == -1 ==> i == 0 || s[i] == ' '
    ensures ScanFrom(s, i).tokens == TrimAll(FixedPieces(s, i))
    decreases |s| - i
  {
    if i < |s| {
      var m := NextMarker(s, i);
      var e := CutAfter(s, m);
      if m != -1 {
        CutPastMarker(s, m);
        if e < |s| {
          FixedAgreesWhenScanned(s, e);
        }
      } else if e < |s| {
        assert false;
      }
    }
  }

  /** Wherever the loop as written ends normally, the intended scan gives the same token list. */
  lemma FixedScanAgrees(raw: string)
    requires Scan(Some(raw)).Scanned?
    ensures Scan(Some(raw)).tokens == FixedScan(Some(raw))
  {
    FixedAgreesWhenScanned(Trim(raw), 0);
  }

  /** The documented example `a/b.feature:10 a/b.feature:20 c/d.feature` throws in the loop as written. */
  lemma ScanCutExample()
    ensures Scan(Some("a/b.feature:10 a/b.feature:20 c/d.feature")) == CutBeforeStart
  {
    var s := "a/b.feature:10 a/b" + Marker + "20 c/d.feature";
    assert s == "a/b.feature:10 a/b.feature:20 c/d.feature";
    ExampleShape("a/b.feature:10 a/b", "20 c/d.feature");
    ScanOutcomeCharacterised(s);
  }

  /** The example is a head with a space, the last marker, and a tail with a space and no colon. */
  lemma ExampleShape(head: string, tail: string)
    requires head == "a/b.feature:10 a/b" && tail == "20 c/d.feature"
    ensures var s := head + Marker + tail;
      Trim(s) == s && LastMarker(s) == |head| && ' ' in s[|head|..] && ' ' in s[..|head|]
  {
    ExampleTrimmed(head, tail);
    ExampleLastMarker(head, tail);
    ExampleSpaces(head, tail);
  }

  lemma ExampleTrimmed(head: string, tail: string)
    requires head == "a/b.feature:10 a/b" && tail == "20 c/d.feature"
    ensures var s := head + Marker + tail; Trim(s) == s
  {
    var s := head + Marker + tail;
    assert s[0] == 'a' && s[|s| - 1] == 'e';
    TrimUnchanged(s);
  }

  lemma ExampleLastMarker(head: string, tail: string)
    requires head == "a/b.feature:10 a/b" && tail == "20 c/d.feature"
    ensures var s := head + Marker + tail; LastMarker(s) == |head|
  {
    var s := head + Marker + tail;
    assert MarkerAt(s, |head|);
    ExampleNoLaterMarker(head, tail);
    LastMarkerIs(s, |head|);
  }

  lemma ExampleSpaces(head: string, tail: string)
    requires head == "a/b.feature:10 a/b" && tail == "20 c/d.feature"
    ensures var s := head + Marker + tail; ' ' in s[|head|..] && ' ' in s[..|head|]
  {
    var s := head + Marker + tail;
    assert s[|head|..][|Marker| + 2] == tail[2] == ' ';
    assert s[..|head|][14] == head[14] == ' ';
  }

  /** After the example's marker the tail holds no colon, so no marker starts there. */
  lemma ExampleNoLaterMarker(head: string, tail: string)
    requires head == "a/b.feature:10 a/b" && tail == "20 c/d.feature"
    ensures var s := head + Marker + tail; forall j :: |head| < j <= |s| ==> !MarkerAt(s, j)
  {
    var s := head + Marker + tail;
    assert ':' !in tail;
    forall j | |head| < j <= |s| ensures !MarkerAt(s, j) {
      if j + |Marker| <= |s| {
        assert s[j + 8] == tail[j + 8 - |head| - |Marker|];
      }
    }
  }

  /** A marker with none after it is the last one. */
  lemma LastMarkerIs(s: string, k: nat)
    requires MarkerAt(s, k) && forall j :: k < j <= |s| ==> !MarkerAt(s, j)
    ensures LastMarker(s) == k
  {
    var r := LastMarkerFrom(s, |s|);
    assert r != -1;
  }
}
