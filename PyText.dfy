/**
 * The Python string operations `extract_city` relies on, over ASCII whitespace:
 * `str.strip()`, `str.split()` with no separator, and the substitution
 * `re.sub(r"[?.!,]*$", "", s)` that removes a trailing run of punctuation.
 *
 * Each operation is computed by scanning indices of its argument; the scans
 * have contracts that pin down the index they stop at, and the last token of
 * `split()` gets an independent right-to-left definition (LastToken).
 */
module PyText {
  import opened Chars

  /** Every character of `s[lo..hi]` is whitespace. */
  predicate SpaceBetween(s: string, lo: nat, hi: nat)
    requires lo <= hi <= |s|
  {
    forall j :: lo <= j < hi ==> IsSpace(s[j])
  }

  /** No character of `s[lo..hi]` is whitespace. */
  predicate NoSpaceBetween(s: string, lo: nat, hi: nat)
    requires lo <= hi <= |s|
  {
    forall j :: lo <= j < hi ==> !IsSpace(s[j])
  }

  predicate AllSpace(s: string) {
    SpaceBetween(s, 0, |s|)
  }

  predicate NoSpace(s: string) {
    NoSpaceBetween(s, 0, |s|)
  }

  /** Scanning right from `i`: the first index that is not whitespace, or `|s|`. */
  function SkipSpace(s: string, i: nat): (j: nat)
    requires i <= |s|
    ensures i <= j <= |s| && SpaceBetween(s, i, j)
    ensures j == |s| || !IsSpace(s[j])
    decreases |s| - i
  {
    if i < |s| && IsSpace(s[i]) then SkipSpace(s, i + 1) else i
  }

  /** Scanning left from `j`, never below `lo`: the start of the whitespace run that ends at `j`. */
  function SkipSpaceBack(s: string, lo: nat, j: nat): (i: nat)
    requires lo <= j <= |s|
    ensures lo <= i <= j && SpaceBetween(s, i, j)
    ensures i == lo || !IsSpace(s[i - 1])
    decreases j
  {
    if lo < j && IsSpace(s[j - 1]) then SkipSpaceBack(s, lo, j - 1) else j
  }

  /** Scanning right from `i`: the end of the run of non-whitespace that starts at `i`. */
  function WordEnd(s: string, i: nat): (j: nat)
    requires i <= |s|
    ensures i <= j <= |s| && NoSpaceBetween(s, i, j)
    ensures j == |s| || IsSpace(s[j])
    decreases |s| - i
  {
    if i < |s| && !IsSpace(s[i]) then WordEnd(s, i + 1) else i
  }

  /** Scanning left from `j`: the start of the run of non-whitespace that ends at `j`. */
  function WordStart(s: string, j: nat): (i: nat)
    requires j <= |s|
    ensures i <= j && NoSpaceBetween(s, i, j)
    ensures i == 0 || IsSpace(s[i - 1])
    decreases j
  {
    if 0 < j && !IsSpace(s[j - 1]) then WordStart(s, j - 1) else j
  }

  /** `str.strip()`: the text between its leading and its trailing whitespace. */
  function Strip(s: string): (r: string)
    ensures r == [] <==> AllSpace(s)
    ensures r == [] || (!IsSpace(r[0]) && !IsSpace(r[|r| - 1]))
  {
    var a := SkipSpace(s, 0);
    var b := SkipSpaceBack(s, a, |s|);
    assert a == |s| ==> b == |s|;
    assert a < |s| ==> b > a;
    s[a..b]
  }

  /** Strip keeps a contiguous slice of its argument and drops only whitespace
      on either side of it. */
  lemma StripIsSlice(s: string) returns (k: nat)
    ensures k + |Strip(s)| <= |s| && Strip(s) == s[k..k + |Strip(s)|]
    ensures SpaceBetween(s, 0, k) && SpaceBetween(s, k + |Strip(s)|, |s|)
  {
    k := SkipSpace(s, 0);
  }

  /** A token of `split()`: a non-empty run without whitespace. */
  predicate IsToken(w: string) {
    w != [] && NoSpace(w)
  }

  /** The tokens of `s[i..]`, scanned from the left as `str.split()` does. */
  function SplitFrom(s: string, i: nat): (tokens: seq<string>)
    requires i <= |s|
    ensures forall t :: 0 <= t < |tokens| ==> IsToken(tokens[t])
    decreases |s| - i
  {
    var a := SkipSpace(s, i);
    if a == |s| then []
    else
      var b := WordEnd(s, a);
      var rest := SplitFrom(s, b);
      assert IsToken(s[a..b]);
      var tokens := [s[a..b]] + rest;
      assert forall t :: 0 <= t < |tokens| ==> IsToken(tokens[t]) by {
        forall t | 0 <= t < |tokens| ensures IsToken(tokens[t]) {
          if t > 0 { assert tokens[t] == rest[t - 1]; }
        }
      }
      tokens
  }

  /** `str.split()` with no separator. The contract gives only the shape of
      each token; SplitEmptyIffBlank and LastOfSplit say which tokens there are. */
  function Split(s: string): (tokens: seq<string>)
    ensures forall t :: 0 <= t < |tokens| ==> IsToken(tokens[t])
  {
    SplitFrom(s, 0)
  }

  /** `split()` finds no token exactly when the text is blank. */
  lemma SplitEmptyIffBlank(s: string)
    ensures Split(s) == [] <==> AllSpace(s)
  {
    var a := SkipSpace(s, 0);
    if a < |s| {
      assert !IsSpace(s[a]);
    }
  }

  /** The last whitespace-delimited token, read from the right: the run of
      non-whitespace just before the trailing whitespace. */
  function LastToken(s: string): (w: string)
    ensures NoSpace(w)
    ensures w == [] <==> AllSpace(s)
  {
    var e := SkipSpaceBack(s, 0, |s|);
    var st := WordStart(s, e);
    assert e > 0 ==> st < e;
    assert NoSpaceBetween(s, st, e);
    assert forall j :: 0 <= j < e - st ==> s[st..e][j] == s[st + j];
    s[st..e]
  }

  /** Two indices that both end a run of non-whitespace followed only by
      whitespace are the same. */
  lemma TrailingSpaceStartUnique(s: string, i: nat, j: nat)
    requires i <= |s| && j <= |s|
    requires SpaceBetween(s, i, |s|) && (i == 0 || !IsSpace(s[i - 1]))
    requires SpaceBetween(s, j, |s|) && (j == 0 || !IsSpace(s[j - 1]))
    ensures i == j
  {
  }

  /** Two indices that both start a run of non-whitespace ending at `e` and
      are preceded by whitespace (or the start) are the same. */
  lemma WordStartUnique(s: string, i: nat, j: nat, e: nat)
    requires i <= e && j <= e && e <= |s|
    requires NoSpaceBetween(s, i, e) && (i == 0 || IsSpace(s[i - 1]))
    requires NoSpaceBetween(s, j, e) && (j == 0 || IsSpace(s[j - 1]))
    ensures i == j
  {
  }

  /** The last token that SplitFrom produces from a token boundary `i` is LastToken. */
  lemma {:induction false} LastOfSplitFrom(s: string, i: nat)
    requires i <= |s| && (i == 0 || i == |s| || IsSpace(s[i]))
    requires SplitFrom(s, i) != []
    ensures SplitFrom(s, i)[|SplitFrom(s, i)| - 1] == LastToken(s)
    decreases |s| - i
  {
    var a := SkipSpace(s, i);
    var b := WordEnd(s, a);
    var rest := SplitFrom(s, b);
    if rest == [] {
      var e := SkipSpaceBack(s, 0, |s|);
      assert SkipSpace(s, b) == |s|;
      assert b > a && !IsSpace(s[b - 1]);
      TrailingSpaceStartUnique(s, b, e);
      if a > 0 {
        assert IsSpace(s[a - 1]);
      }
      WordStartUnique(s, a, WordStart(s, e), e);
    } else {
      LastOfSplitFrom(s, b);
    }
  }

  /** The last token of `split()` is LastToken. */
  lemma LastOfSplit(s: string)
    requires Split(s) != []
    ensures Split(s)[|Split(s)| - 1] == LastToken(s)
  {
    LastOfSplitFrom(s, 0);
  }

  /** Dropping whitespace from both ends of a text does not change its last token. */
  lemma LastTokenOfTrimmedSlice(s: string, k: nat, l: nat)
    requires k + l <= |s| && SpaceBetween(s, 0, k) && SpaceBetween(s, k + l, |s|)
    requires l > 0 && !IsSpace(s[k + l - 1])
    ensures LastToken(s[k..k + l]) == LastToken(s)
  {
    var x := s[k..k + l];
    var es := SkipSpaceBack(s, 0, |s|);
    TrailingSpaceStartUnique(s, k + l, es);
    assert SkipSpaceBack(x, 0, l) == l;
    var w := WordStart(x, l);
    assert NoSpaceBetween(s, k + w, k + l);
    assert k + w > 0 ==> IsSpace(s[k + w - 1]) by {
      if w > 0 { assert s[k + w - 1] == x[w - 1]; }
    }
    WordStartUnique(s, k + w, WordStart(s, es), es);
    assert x[w..l] == s[k + w..k + l];
  }

  /** Stripping the text first does not change its last token. */
  lemma LastTokenOfStrip(s: string)
    ensures LastToken(Strip(s)) == LastToken(s)
  {
    var k := StripIsSlice(s);
    if Strip(s) != [] {
      LastTokenOfTrimmedSlice(s, k, |Strip(s)|);
    }
  }

  /** The characters of the regex class `[?.!,]`. */
  predicate IsTrailingPunct(c: char) {
    c == '?' || c == '.' || c == '!' || c == ','
  }

  /** Scanning left from `j`: the start of the run of `[?.!,]` that ends at `j`. */
  function PunctRunStart(s: string, j: nat): (i: nat)
    requires j <= |s|
    ensures i <= j && forall k :: i <= k < j ==> IsTrailingPunct(s[k])
    ensures i == 0 || !IsTrailingPunct(s[i - 1])
    decreases j
  {
    if 0 < j && IsTrailingPunct(s[j - 1]) then PunctRunStart(s, j - 1) else j
  }

  /** `re.sub(r"[?.!,]*$", "", s)` on a string that does not end in a line
      feed: the text without its maximal trailing run of `?`, `.`, `!`, `,`. */
  function TrimTrailingPunct(s: string): (r: string)
    ensures |r| <= |s| && r == s[..|r|]
    ensures forall k :: |r| <= k < |s| ==> IsTrailingPunct(s[k])
    ensures r == [] || !IsTrailingPunct(r[|r| - 1])
  {
    s[..PunctRunStart(s, |s|)]
  }

  /** A string that does not end in punctuation is left alone. */
  lemma TrimTrailingPunctNoOp(s: string)
    requires s == [] || !IsTrailingPunct(s[|s| - 1])
    ensures TrimTrailingPunct(s) == s
  {
  }

  /** The trim is idempotent: its result has no trailing run left to remove. */
  lemma TrimTrailingPunctIdempotent(s: string)
    ensures TrimTrailingPunct(TrimTrailingPunct(s)) == TrimTrailingPunct(s)
  {
    TrimTrailingPunctNoOp(TrimTrailingPunct(s));
  }
}
