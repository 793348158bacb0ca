/**
  The few java.lang.String operations MainRunner relies on, with Java's edge
  cases written out: trim() strips every character at or below U+0020,
  indexOf treats a negative start as 0, and split() drops trailing empty
  strings but returns the whole string when the separator does not occur.
 */
module JavaText {

  /** The characters String.trim() removes: every code point at or below a space. */
  predicate IsTrimmable(c: char) { c <= ' ' }

  function TrimStart(s: string): (r: string)
    ensures |r| <= |s| && r == s[|s| - |r|..]
    ensures forall k :: 0 <= k < |s| - |r| ==> IsTrimmable(s[k])
    ensures r == [] || !IsTrimmable(r[0])
  {
    if s == [] || !IsTrimmable(s[0]) then s else TrimStart(s[1..])
  }

  function TrimEnd(s: string): (r: string)
    ensures |r| <= |s| && r == s[..|r|]
    ensures forall k :: |r| <= k < |s| ==> IsTrimmable(s[k])
    ensures r == [] || !IsTrimmable(r[|r| - 1])
  {
    if s == [] || !IsTrimmable(s[|s| - 1]) then s else TrimEnd(s[..|s| - 1])
  }

  /** Where Trim(s) starts inside s. */
  function TrimOffset(s: string): nat
  {
    |s| - |TrimStart(s)|
  }

  /** String.trim(): the longest middle slice without a trimmable character at either end. */
  function Trim(s: string): (r: string)
    ensures TrimOffset(s) + |r| <= |s|
    ensures r == s[TrimOffset(s)..TrimOffset(s) + |r|]
    ensures forall k :: 0 <= k < TrimOffset(s) ==> IsTrimmable(s[k])
    ensures forall k :: TrimOffset(s) + |r| <= k < |s| ==> IsTrimmable(s[k])
    ensures r == [] || (!IsTrimmable(r[0]) && !IsTrimmable(r[|r| - 1]))
  {
    TrimEnd(TrimStart(s))
  }

  /** String.replace(char, char). */
  function ReplaceChar(s: string, from: char, to: char): (r: string)
    ensures |r| == |s|
    ensures forall k :: 0 <= k < |s| ==> r[k] == (if s[k] == from then to else s[k])
  {
    seq(|s|, k requires 0 <= k < |s| => if s[k] == from then to else s[k])
  }

  /** String.replace("c", ""): every occurrence of c deleted. */
  function RemoveChar(s: string, c: char): (r: string)
    ensures c !in r
    ensures |r| <= |s|
    ensures forall x :: x != c ==> (x in r <==> x in s)
  {
    if s == [] then []
    else if s[0] == c then RemoveChar(s[1..], c)
    else [s[0]] + RemoveChar(s[1..], c)
  }

  predicate EndsWith(s: string, suffix: string)
  {
    |suffix| <= |s| && s[|s| - |suffix|..] == suffix
  }

  /** String.contains(pat). */
  predicate Contains(s: string, pat: string)
    decreases |s|
  {
    if |s| < |pat| then false
    else s[..|pat|] == pat || (s != [] && Contains(s[1..], pat))
  }

  /** String.indexOf(int ch, int fromIndex): a negative start searches from 0. */
  function IndexOfChar(s: string, c: char, from: int): (r: int)
    decreases |s| - from
    ensures -1 <= r < |s|
    ensures r == -1 ==> forall k :: 0 <= k < |s| && from <= k ==> s[k] != c
    ensures r != -1 ==> from <= r && s[r] == c && forall k :: 0 <= k < r && from <= k ==> s[k] != c
  {
    if from < 0 then IndexOfChar(s, c, 0)
    else if from >= |s| then -1
    else if s[from] == c then from
    else IndexOfChar(s, c, from + 1)
  }

  /** String.lastIndexOf(int ch). */
  function LastIndexOfChar(s: string, c: char): (r: int)
    ensures -1 <= r < |s|
    ensures r == -1 <==> c !in s
    ensures r != -1 ==> s[r] == c && c !in s[r + 1..]
  {
    if s == [] then -1
    else if s[|s| - 1] == c then |s| - 1
    else
      var r := LastIndexOfChar(s[..|s| - 1], c);
      assert s[..|s| - 1] + [s[|s| - 1]] == s;
      r
  }

  /** The last occurrence is the one with no occurrence after it. */
  lemma LastIndexOfCharAt(s: string, c: char, i: int)
    requires 0 <= i < |s| && s[i] == c && c !in s[i + 1..]
    ensures LastIndexOfChar(s, c) == i
  {
    var r := LastIndexOfChar(s, c);
    assert c in s by { assert s[i] == c; }
    forall j | i < j < |s| ensures s[j] != c {
      assert s[j] == s[i + 1..][j - i - 1];
    }
    forall j | r < j < |s| ensures s[j] != c {
      assert s[j] == s[r + 1..][j - r - 1];
    }
  }

  /** Every piece between separators, trailing empties included (split with a negative limit). */
  function Pieces(s: string, sep: char): (r: seq<string>)
    ensures |r| >= 1
    ensures forall k :: 0 <= k < |r| ==> sep !in r[k]
    ensures sep !in s ==> r == [s]
  {
    if s == [] then [[]]
    else
      var rest := Pieces(s[1..], sep);
      assert s == [s[0]] + s[1..];
      if s[0] == sep then [[]] + rest
      else [[s[0]] + rest[0]] + rest[1..]
  }

  /** What split() does to its list with limit 0: empty strings at the end are removed. */
  function DropTrailingEmpty(ps: seq<string>): (r: seq<string>)
    ensures |r| <= |ps| && r == ps[..|r|]
    ensures r == [] || r[|r| - 1] != []
    ensures forall k :: |r| <= k < |ps| ==> ps[k] == []
  {
    if ps == [] || ps[|ps| - 1] != [] then ps else DropTrailingEmpty(ps[..|ps| - 1])
  }

  /** String.split with a one-character literal separator and limit 0. */
  function Split(s: string, sep: char): (r: seq<string>)
    ensures forall k :: 0 <= k < |r| ==> sep !in r[k]
  {
    if sep !in s then [s] else DropTrailingEmpty(Pieces(s, sep))
  }

  /** StringUtils.join(list, sep). */
  function Join(parts: seq<string>, sep: string): string
  {
    if parts == [] then []
    else if |parts| == 1 then parts[0]
    else parts[0] + sep + Join(parts[1..], sep)
  }

  /** A suffix cut in two at e. */
  lemma SuffixSplit(s: string, i: nat, e: nat)
    requires i <= e <= |s|
    ensures s[i..] == s[i..e] + s[e..]
  {
  }

  /** Joining one more part appends the separator and the part. */
  lemma {:induction false} JoinSnoc(parts: seq<string>, x: string, sep: string)
    requires parts != []
    ensures Join(parts + [x], sep) == Join(parts, sep) + sep + x
  {
    if |parts| == 1 {
      assert (parts + [x])[1..] == [x];
    } else {
      assert (parts + [x])[1..] == parts[1..] + [x];
      JoinSnoc(parts[1..], x, sep);
    }
  }

  /** Joining the pieces with the separator gives the string back. */
  lemma {:induction false} JoinPieces(s: string, sep: char)
    ensures Join(Pieces(s, sep), [sep]) == s
  {
    if s != [] {
      JoinPieces(s[1..], sep);
      var rest := Pieces(s[1..], sep);
      if s[0] != sep && |rest| > 1 {
        assert Pieces(s, sep)[1..] == rest[1..];
      }
    }
  }

  /** The first piece of s is the text before the first separator. */
  lemma {:induction false} FirstPiece(s: string, sep: char, k: nat)
    requires k < |s| && s[k] == sep && sep !in s[..k]
    ensures Pieces(s, sep)[0] == s[..k]
  {
    if k > 0 {
      assert s[1..][..k - 1] == s[1..k];
      assert sep !in s[1..][..k - 1];
      FirstPiece(s[1..], sep, k - 1);
      assert s[..k] == [s[0]] + s[1..k];
    }
  }

  /** When the first piece is not empty, split keeps it as its first element. */
  lemma SplitFirst(s: string, sep: char, k: nat)
    requires 0 < k < |s| && s[k] == sep && sep !in s[..k]
    ensures |Split(s, sep)| >= 1 && Split(s, sep)[0] == s[..k]
  {
    FirstPiece(s, sep, k);
  }

  /** Splitting at a first separator: the text before it, then the pieces of the rest. */
  lemma {:induction false} PiecesAtSeparator(a: string, sep: char, b: string)
    requires sep !in a
    ensures Pieces(a + [sep] + b, sep) == [a] + Pieces(b, sep)
  {
    if a != [] {
      assert (a + [sep] + b)[1..] == a[1..] + [sep] + b;
      PiecesAtSeparator(a[1..], sep, b);
      assert [a[0]] + a[1..] == a;
    } else {
      assert a + [sep] + b == [sep] + b;
      assert ([sep] + b)[1..] == b;
    }
  }

  /** trim() keeps every character between two characters it does not strip. */
  lemma TrimKeepsInner(s: string, a: nat, b: nat)
    requires a < b <= |s| && !IsTrimmable(s[a]) && !IsTrimmable(s[b - 1])
    ensures TrimOffset(s) <= a && b <= TrimOffset(s) + |Trim(s)|
    ensures forall j :: a <= j < b ==> Trim(s)[j - TrimOffset(s)] == s[j]
  {
  }

  /** Trimming adds no character. */
  lemma TrimAbsent(s: string, c: char)
    requires c !in s
    ensures c !in Trim(s)
  {
    var r := Trim(s);
    forall k | 0 <= k < |r| ensures r[k] != c {
      assert r[k] == s[TrimOffset(s) + k];
    }
  }

  /** After a replace, neither the replaced character nor one absent before (other than the new one) occurs. */
  lemma ReplaceCharAbsent(s: string, from: char, to: char, c: char)
    requires c != to && (c == from || c !in s)
    ensures c !in ReplaceChar(s, from, to)
  {
    var r := ReplaceChar(s, from, to);
    forall k | 0 <= k < |r| ensures r[k] != c {
      assert r[k] == (if s[k] == from then to else s[k]);
    }
  }

  /** trim() leaves a string alone when neither end is trimmable. */
  lemma TrimUnchanged(s: string)
    requires s == [] || (!IsTrimmable(s[0]) && !IsTrimmable(s[|s| - 1]))
    ensures Trim(s) == s
  {
  }

  lemma {:induction false} RemoveCharConcat(a: string, b: string, c: char)
    ensures RemoveChar(a + b, c) == RemoveChar(a, c) + RemoveChar(b, c)
  {
    if a != [] {
      assert (a + b)[1..] == a[1..] + b;
      RemoveCharConcat(a[1..], b, c);
    } else {
      assert a + b == b;
    }
  }

  lemma {:induction false} RemoveCharAbsent(s: string, c: char)
    requires c !in s
    ensures RemoveChar(s, c) == s
  {
    if s != [] {
      RemoveCharAbsent(s[1..], c);
      assert [s[0]] + s[1..] == s;
    }
  }

  lemma ReplaceCharConcat(a: string, b: string, from: char, to: char)
    ensures ReplaceChar(a + b, from, to) == ReplaceChar(a, from, to) + ReplaceChar(b, from, to)
  {
  }

  /** Replacing a by b and then b by a restores a string that had no b. */
  lemma ReplaceCharBack(s: string, a: char, b: char)
    requires b !in s
    ensures ReplaceChar(ReplaceChar(s, a, b), b, a) == s
  {
  }

  /** A pattern cannot occur where its first character does not. */
  lemma {:induction false} NotContainsFirst(s: string, pat: string)
    requires pat != [] && pat[0] !in s
    ensures !Contains(s, pat)
  {
    if |s| >= |pat| {
      assert s[..|pat|][0] == s[0];
      NotContainsFirst(s[1..], pat);
    }
  }

  /** String.replace(target, replacement): every non-overlapping occurrence, left to right. */
  function ReplaceAll(s: string, pat: string, rep: string): (r: string)
    requires pat != []
    decreases |s|
    ensures !Contains(s, pat) ==> r == s
    ensures |rep| <= |pat| ==> |r| <= |s|
  {
    if |s| < |pat| then s
    else if s[..|pat|] == pat then rep + ReplaceAll(s[|pat|..], pat, rep)
    else
      assert s == [s[0]] + s[1..];
      [s[0]] + ReplaceAll(s[1..], pat, rep)
  }
  /** A leading occurrence of pat is replaced, and the replacement goes on after it. */
  lemma ReplaceAllPrefix(pat: string, rest: string, rep: string)
    requires pat != []
    ensures ReplaceAll(pat + rest, pat, rep) == rep + ReplaceAll(rest, pat, rep)
  {
    assert (pat + rest)[..|pat|] == pat;
    assert (pat + rest)[|pat|..] == rest;
  }


  /** A prefix holding no first character of pat cannot start a match, so it adds none. */
  lemma {:induction false} NotContainsConcat(a: string, b: string, pat: string)
    requires pat != [] && pat[0] !in a && !Contains(b, pat)
    ensures !Contains(a + b, pat)
  {
    if a != [] {
      NotContainsConcat(a[1..], b, pat);
      assert (a + b)[1..] == a[1..] + b;
      if |a + b| >= |pat| {
        assert (a + b)[..|pat|][0] == a[0];
      }
    } else {
      assert a + b == b;
    }
  }

  /** A string contains every one of its infixes. */
  lemma {:induction false} ContainsInfix(a: string, pat: string, b: string)
    ensures Contains(a + pat + b, pat)
  {
    if a == [] {
      assert (a + pat + b)[..|pat|] == pat;
    } else {
      ContainsInfix(a[1..], pat, b);
      assert (a + pat + b)[1..] == a[1..] + pat + b;
    }
  }
}
