/**
  MainRunner.getExParams: a parameter is read from the process environment,
  or else from the URL-decoded `ex_params` string, a space-separated list of
  `name=value` tokens in which spaces between double quotes do not separate.
 */
module Params {
  import opened Wrappers
  import opened JavaText

  /**
    What getExParams can see: the environment variables, and the result of
    URL-decoding the `ex_params` variable (None when decoding threw, which is
    what happens when `ex_params` is unset).
   */
  datatype Env = Env(vars: map<string, string>, exParams: Option<string>)

  function QuoteCount(s: string): nat
  {
    multiset(s)['"']
  }

  /** Position k lies inside a quoted stretch: every double quote before it flips the state. */
  predicate InsideQuotes(s: string, k: nat)
    requires k <= |s|
  {
    k > 0 && (InsideQuotes(s, k - 1) != (s[k - 1] == '"'))
  }

  /** Inside a quoted stretch exactly when an odd number of double quotes precede. */
  lemma {:induction false} InsideQuotesParity(s: string, k: nat)
    requires k <= |s|
    ensures InsideQuotes(s, k) <==> QuoteCount(s[..k]) % 2 == 1
  {
    if k > 0 {
      InsideQuotesParity(s, k - 1);
      assert s[..k] == s[..k - 1] + [s[k - 1]];
    }
  }

  /**
    The masking pass: every space inside a quoted stretch becomes '|'; a
    quote that is never closed keeps its stretch open to the end.
   */
  function Mask(s: string): (r: string)
    ensures |r| == |s|
    ensures forall k :: 0 <= k < |s| && r[k] != s[k] ==> s[k] == ' ' && r[k] == '|'
  {
    seq(|s|, k requires 0 <= k < |s| => MaskChar(s, k))
  }

  /** The character the masking pass leaves at position k. */
  function MaskChar(s: string, k: nat): char
    requires k < |s|
  {
    if s[k] == ' ' && InsideQuotes(s, k) then '|' else s[k]
  }

  /**
    The inner loop of lines 240-250: from just after an opening quote, spaces
    become '|' up to the closing quote, which resets qindex; with no closing
    quote the stretch runs to the end and qindex stays set.
   */
  method MaskQuotedStretch(sb: array<char>, from: int, qindex: int, ghost s: string) returns (i: int, q: int)
    modifies sb
    requires |s| == sb.Length && 0 < from <= sb.Length && InsideQuotes(s, from)
    requires forall k :: 0 <= k < from ==> sb[k] == MaskChar(s, k)
    requires forall k :: from <= k < sb.Length ==> sb[k] == s[k]
    ensures from <= i <= sb.Length
    ensures forall k :: 0 <= k < i + 1 && k < sb.Length ==> sb[k] == MaskChar(s, k)
    ensures forall k :: i + 1 <= k < sb.Length ==> sb[k] == s[k]
    ensures i < sb.Length ==> q == -1 && !InsideQuotes(s, i + 1)
    ensures i == sb.Length ==> q == qindex
  {
    var n := sb.Length;
    i := from;
    q := qindex;
    while i < n
      invariant from <= i <= n && q == qindex
      invariant InsideQuotes(s, i)
      invariant forall k :: 0 <= k < i ==> sb[k] == MaskChar(s, k)
      invariant forall k :: i <= k < n ==> sb[k] == s[k]
      decreases n - i
    {
      var c := sb[i];
      if c == '"' {
        assert sb[i] == MaskChar(s, i);
        q := -1;
        break;
      }
      if c == ' ' {
        sb[i] := '|';
      }
      i := i + 1;
    }
  }

  /** Lines 234-252: the nested loops over the StringBuilder, run on an array in place. */
  method MaskQuotedSpaces(sb: array<char>)
    modifies sb
    ensures sb[..] == Mask(old(sb[..]))
  {
    ghost var s := sb[..];
    ghost var m := Mask(s);
    var n := sb.Length;
    var i := 0;
    var qindex := -1;
    while i < n
      invariant 0 <= i <= n + 1
      invariant i <= n ==> qindex == -1 && !InsideQuotes(s, i)
      invariant forall k :: 0 <= k < i && k < n ==> sb[k] == MaskChar(s, k)
      invariant forall k :: i <= k < n ==> sb[k] == s[k]
      decreases n + 1 - i
    {
      var c := sb[i];
      if c == '"' && qindex == -1 {
        qindex := i;
      }
      if qindex > -1 {
        assert InsideQuotes(s, i + 1) && sb[i] == MaskChar(s, i);
        i, qindex := MaskQuotedStretch(sb, i + 1, qindex, s);
      } else {
        assert !InsideQuotes(s, i + 1) && sb[i] == MaskChar(s, i);
      }
      i := i + 1;
    }
    assert forall k :: 0 <= k < n ==> sb[k] == m[k];
    assert sb[..] == m;
  }

  /** The value of a token that starts with `name=`: split("=")[1].trim(), then '|' back to space and quotes removed. */
  function TokenValue(token: string): Option<string>
  {
    var parts := Split(token, '=');
    if |parts| < 2 then None  // ArrayIndexOutOfBoundsException, caught: the lookup yields null
    else Some(RemoveChar(ReplaceChar(Trim(parts[1]), '|', ' '), '"'))
  }

  /** The first token that starts with key decides; a later one is never consulted. */
  function FirstValue(tokens: seq<string>, key: string): Option<string>
  {
    if tokens == [] then None
    else if key <= tokens[0] then TokenValue(tokens[0])
    else FirstValue(tokens[1..], key)
  }

  function OverrideValue(decoded: string, name: string): Option<string>
  {
    if decoded == [] then None else FirstValue(Split(Mask(decoded), ' '), name + "=")
  }

  /** The specification of getExParams. */
  function ExParam(env: Env, name: string): Option<string>
  {
    if name in env.vars then Some(env.vars[name])
    else if env.exParams.None? then None
    else OverrideValue(env.exParams.value, name)
  }

  /** Lines 226-264. */
  method GetExParams(env: Env, name: string) returns (r: Option<string>)
    ensures r == ExParam(env, name)
    ensures name in env.vars ==> r == Some(env.vars[name])
    ensures name !in env.vars && env.exParams.None? ==> r == None
  {
    if name in env.vars {
      return Some(env.vars[name]);
    }
    var key := name + "=";
    if env.exParams.None? {
      return None;
    }
    var exparams := env.exParams.value;
    if exparams == [] {
      return None;
    }
    var sb := new char[|exparams|](k requires 0 <= k < |exparams| => exparams[k]);
    assert sb[..] == exparams;
    MaskQuotedSpaces(sb);
    var tokens := Split(sb[..], ' ');
    var t := 0;
    while t < |tokens|
      invariant 0 <= t <= |tokens|
      invariant FirstValue(tokens, key) == FirstValue(tokens[t..], key)
    {
      assert tokens[t..][1..] == tokens[t + 1..];
      if key <= tokens[t] {
        return TokenValue(tokens[t]);
      }
      t := t + 1;
    }
    return None;
  }

  /** Masking changes no double quote, so every prefix keeps its quote count. */
  lemma {:induction false} MaskKeepsQuoteCount(s: string, k: nat)
    requires k <= |s|
    ensures QuoteCount(Mask(s)[..k]) == QuoteCount(s[..k])
  {
    if k > 0 {
      MaskKeepsQuoteCount(s, k - 1);
      assert Mask(s)[..k] == Mask(s)[..k - 1] + [Mask(s)[k - 1]];
      assert s[..k] == s[..k - 1] + [s[k - 1]];
    }
  }

  /** Masking twice is masking once: no space is left inside quotes. */
  lemma MaskIdempotent(s: string)
    ensures Mask(Mask(s)) == Mask(s)
  {
    var m := Mask(s);
    forall k | 0 <= k < |s|
      ensures Mask(m)[k] == m[k]
    {
      MaskKeepsQuoteCount(s, k);
      InsideQuotesParity(s, k);
      InsideQuotesParity(m, k);
    }
  }

  /** A stretch without quotes at the start of s is left as it is. */
  lemma MaskQuoteFreePrefix(s: string, p: nat)
    requires p <= |s| && '"' !in s[..p]
    ensures Mask(s)[..p] == s[..p]
  {
    forall k | 0 <= k < p
      ensures Mask(s)[k] == s[k]
    {
      assert s[..k] == s[..p][..k];
      assert '"' !in multiset(s[..k]);
      InsideQuotesParity(s, k);
    }
  }

  /** A value read from ex_params never holds '=', '|' or a double quote. */
  lemma {:induction false} FirstValueClean(tokens: seq<string>, key: string)
    requires FirstValue(tokens, key).Some?
    ensures var v := FirstValue(tokens, key).value; '"' !in v && '|' !in v && '=' !in v
  {
    if !(key <= tokens[0]) {
      FirstValueClean(tokens[1..], key);
    } else {
      TokenValueClean(tokens[0]);
    }
  }

  lemma TokenValueClean(token: string)
    requires TokenValue(token).Some?
    ensures var v := TokenValue(token).value; '"' !in v && '|' !in v && '=' !in v
  {
    ValuePartClean(Split(token, '=')[1]);
  }

  /** The trim, unmask and unquote chain on a piece without '='. */
  lemma ValuePartClean(p: string)
    requires '=' !in p
    ensures var v := RemoveChar(ReplaceChar(Trim(p), '|', ' '), '"'); '"' !in v && '|' !in v && '=' !in v
  {
    var t := Trim(p);
    TrimAbsent(p, '=');
    ReplaceCharAbsent(t, '|', ' ', '|');
    ReplaceCharAbsent(t, '|', ' ', '=');
  }

  lemma OverrideValueClean(env: Env, name: string)
    requires name !in env.vars && ExParam(env, name).Some?
    ensures var v := ExParam(env, name).value; '"' !in v && '|' !in v && '=' !in v
  {
    FirstValueClean(Split(Mask(env.exParams.value), ' '), name + "=");
  }

  /** Inside `name="v"` exactly the spaces of v are masked. */
  lemma MaskQuotedToken(name: string, v: string)
    requires '"' !in name && '"' !in v
    ensures Mask(name + "=\"" + v + "\"") == name + "=" + "\"" + ReplaceChar(v, ' ', '|') + "\""
  {
    var d := name + "=\"" + v + "\"";
    var md := name + "=" + "\"" + ReplaceChar(v, ' ', '|') + "\"";
    var n := |name|;
    forall k | 0 <= k < |d|
      ensures Mask(d)[k] == md[k]
    {
      if k <= n + 1 {
        MaskBeforeQuote(name, v, k);
      } else if k < |d| - 1 {
        MaskInsideQuotes(name, v, k);
      }
    }
  }

  /** Up to the opening quote of `name="v"` nothing is masked. */
  lemma MaskBeforeQuote(name: string, v: string, k: nat)
    requires '"' !in name && k <= |name| + 1
    ensures var d := name + "=\"" + v + "\"";
      Mask(d)[k] == (name + "=" + "\"" + ReplaceChar(v, ' ', '|') + "\"")[k]
  {
    var d := name + "=\"" + v + "\"";
    assert d[..k] == (name + "=")[..k];
    assert '"' !in multiset(d[..k]);
    InsideQuotesParity(d, k);
  }

  /** Between the quotes of `name="v"` a space is masked. */
  lemma MaskInsideQuotes(name: string, v: string, k: nat)
    requires '"' !in name && '"' !in v && |name| + 2 <= k < |name| + 2 + |v|
    ensures var d := name + "=\"" + v + "\"";
      Mask(d)[k] == (name + "=" + "\"" + ReplaceChar(v, ' ', '|') + "\"")[k]
  {
    var d := name + "=\"" + v + "\"";
    var n := |name|;
    assert d[..k] == name + "=" + "\"" + v[..k - n - 2];
    assert multiset(d[..k])['"'] == 1;
    InsideQuotesParity(d, k);
    assert d[k] == v[k - n - 2];
  }

  lemma UnmaskSpaces(v: string)
    requires '|' !in v
    ensures ReplaceChar("\"" + ReplaceChar(v, ' ', '|') + "\"", '|', ' ') == "\"" + v + "\""
  {
    var mv := ReplaceChar(v, ' ', '|');
    ReplaceCharConcat("\"" + mv, "\"", '|', ' ');
    ReplaceCharConcat("\"", mv, '|', ' ');
    ReplaceCharBack(v, ' ', '|');
  }

  lemma DropQuotes(v: string)
    requires '"' !in v
    ensures RemoveChar("\"" + v + "\"", '"') == v
  {
    RemoveCharConcat("\"" + v, "\"", '"');
    RemoveCharConcat("\"", v, '"');
    RemoveCharAbsent(v, '"');
  }

  lemma TrimQuoted(v: string)
    ensures Trim("\"" + v + "\"") == "\"" + v + "\""
  {
    TrimUnchanged("\"" + v + "\"");
  }

  /** Unmasking `"v"` with its spaces masked, then dropping the quotes, gives v. */
  lemma UnmaskQuoted(v: string)
    requires '"' !in v && '|' !in v
    ensures RemoveChar(ReplaceChar(Trim("\"" + ReplaceChar(v, ' ', '|') + "\""), '|', ' '), '"') == v
  {
    TrimQuoted(ReplaceChar(v, ' ', '|'));
    UnmaskSpaces(v);
    DropQuotes(v);
  }

  /** The value part of `name="v"` after masking comes back as v. */
  lemma TokenValueQuoted(name: string, v: string)
    requires '=' !in name && '"' !in v && '|' !in v && '=' !in v
    ensures TokenValue(name + "=" + "\"" + ReplaceChar(v, ' ', '|') + "\"") == Some(v)
  {
    var mv := ReplaceChar(v, ' ', '|');
    var rest := "\"" + mv + "\"";
    var token := name + "=" + rest;
    assert name + "=" + "\"" + mv + "\"" == token;
    assert Split(token, '=') == [name, rest] by {
      assert '=' !in rest;
      PiecesAtSeparator(name, '=', rest);
      assert token == name + ['='] + rest;
    }
    UnmaskQuoted(v);
  }

  /** `name="v"` gives back v, spaces included: the quoted round trip. */
  lemma QuotedValueRoundTrip(env: Env, name: string, v: string)
    requires name !in env.vars
    requires ' ' !in name && '"' !in name && '=' !in name
    requires '"' !in v && '|' !in v && '=' !in v
    requires env.exParams == Some(name + "=\"" + v + "\"")
    ensures ExParam(env, name) == Some(v)
  {
    var mv := ReplaceChar(v, ' ', '|');
    var md := name + "=" + "\"" + mv + "\"";
    MaskQuotedToken(name, v);
    assert ' ' !in mv;
    assert ' ' !in md;
    assert Split(md, ' ') == [md];
    assert (name + "=") <= md;
    TokenValueQuoted(name, v);
  }

  /** The example of a tag expression with spaces. */
  lemma TagsExample(env: Env)
    requires "tags" !in env.vars && env.exParams == Some("tags=\"smoke and ui\"")
    ensures ExParam(env, "tags") == Some("smoke and ui")
  {
    assert "tags" + "=\"" + "smoke and ui" + "\"" == "tags=\"smoke and ui\"";
    QuotedValueRoundTrip(env, "tags", "smoke and ui");
  }

  /**
    A first matching token with nothing after '=' makes split("=")[1] throw;
    the exception ends the whole lookup, so a later `name=value` token is never reached.
   */
  lemma EmptyValueShadows(env: Env, name: string, rest: string)
    requires name !in env.vars
    requires ' ' !in name && '"' !in name && '=' !in name
    requires env.exParams == Some(name + "= " + rest)
    ensures ExParam(env, name) == None
  {
    var d := name + "= " + rest;
    var tokens := Split(Mask(d), ' ');
    EmptyValueFirstToken(name, rest);
    BareKeyHasNoValue(name);
    assert FirstValue(tokens, name + "=") == TokenValue(name + "=");
  }

  /** After masking, `name= rest` starts with the token `name=`. */
  lemma EmptyValueFirstToken(name: string, rest: string)
    requires ' ' !in name && '"' !in name
    ensures var s := Split(Mask(name + "= " + rest), ' '); |s| >= 1 && s[0] == name + "="
  {
    var d := name + "= " + rest;
    var n := |name|;
    assert d[..n + 1] == name + "=";
    assert d[..n + 2] == name + "= ";
    MaskQuoteFreePrefix(d, n + 2);
    var md := Mask(d);
    assert md[..n + 2] == d[..n + 2];
    assert md[..n + 1] == name + "=" && md[n + 1] == ' ';
    SplitFirst(md, ' ', n + 1);
  }

  /** The token `name=` splits into one part, so reading split("=")[1] throws. */
  lemma BareKeyHasNoValue(name: string)
    requires '=' !in name
    ensures TokenValue(name + "=") == None
  {
    PiecesAtSeparator(name, '=', "");
    assert name + "=" == name + ['='] + "";
  }
}
