/**
 * The few Python `str` operations and character classes the ingestion client
 * relies on: `strip`, `lstrip`, `upper`, `find`, and the token split of
 * `re.split(r'\s+|,|;|\||\t', s)` with its empty pieces dropped.
 * Case mapping is ASCII only.
 */
module Text {

  /** `c.isspace()` in Python, which is also what `\s` matches in a `str` pattern. */
  predicate IsSpace(c: char) {
    || c == ' '
    || '\t' <= c <= '\r'
    || '\U{1c}' <= c <= '\U{1f}'
    || c == '\U{85}'
    || c == '\U{a0}'
    || c == '\U{1680}'
    || '\U{2000}' <= c <= '\U{200a}'
    || c == '\U{2028}'
    || c == '\U{2029}'
    || c == '\U{202f}'
    || c == '\U{205f}'
    || c == '\U{3000}'
  }

  predicate IsAsciiDigit(c: char) {
    '0' <= c <= '9'
  }

  predicate IsAsciiLetter(c: char) {
    'A' <= c <= 'Z' || 'a' <= c <= 'z'
  }

  /** `re.search(r'[A-Za-z]', s)` succeeds. */
  predicate HasAsciiLetter(s: string) {
    exists i :: 0 <= i < |s| && IsAsciiLetter(s[i])
  }

  /** The length of the longest all-whitespace prefix of `s`. */
  function LeadingSpaces(s: string): (n: nat)
    ensures n <= |s|
    ensures forall i :: 0 <= i < n ==> IsSpace(s[i])
    ensures n < |s| ==> !IsSpace(s[n])
  {
    if s != [] && IsSpace(s[0]) then 1 + LeadingSpaces(s[1..]) else 0
  }

  /** The length of the longest all-whitespace suffix of `s`. */
  function TrailingSpaces(s: string): (n: nat)
    ensures n <= |s|
    ensures forall i :: |s| - n <= i < |s| ==> IsSpace(s[i])
    ensures n < |s| ==> !IsSpace(s[|s| - n - 1])
  {
    if s != [] && IsSpace(s[|s| - 1]) then 1 + TrailingSpaces(s[..|s| - 1]) else 0
  }

  /** `s.lstrip()` */
  function LStrip(s: string): string {
    s[LeadingSpaces(s)..]
  }

  /** `s.rstrip()` */
  function RStrip(s: string): string {
    s[..|s| - TrailingSpaces(s)]
  }

  /** `s.strip()` */
  function Strip(s: string): string {
    RStrip(LStrip(s))
  }

  /** ASCII `str.upper()` on one character. */
  function UpperChar(c: char): char {
    if 'a' <= c <= 'z' then (c as int - 32) as char else c
  }

  function Upper(s: string): string {
    seq(|s|, i requires 0 <= i < |s| => UpperChar(s[i]))
  }

  /** The first index of `c` in `s`, or `|s|` when `c` does not occur. */
  function IndexOf(s: string, c: char): (i: nat)
    ensures i <= |s|
    ensures forall j :: 0 <= j < i ==> s[j] != c
    ensures i < |s| ==> s[i] == c
  {
    if s == [] then 0 else if s[0] == c then 0 else 1 + IndexOf(s[1..], c)
  }

  /** The first index where the two-character string `[a, b]` starts in `s`, or `|s|`. */
  function IndexOfPair(s: string, a: char, b: char): (i: nat)
    ensures i <= |s|
    ensures i < |s| ==> i + 1 < |s| && s[i] == a && s[i + 1] == b
    ensures forall j :: 0 <= j < i && j + 1 < |s| ==> !(s[j] == a && s[j + 1] == b)
  {
    if |s| < 2 then |s|
    else if s[0] == a && s[1] == b then 0
    else 1 + IndexOfPair(s[1..], a, b)
  }

  /** A character the token split at tcpclient.py:72 cuts on. */
  predicate IsSeparator(c: char) {
    IsSpace(c) || c == ',' || c == ';' || c == '|'
  }

  /** A non-empty run of non-separator characters. */
  predicate IsWord(t: string) {
    t != [] && forall i :: 0 <= i < |t| ==> !IsSeparator(t[i])
  }

  /** The length of the longest all-separator prefix of `s`. */
  function LeadingSeparators(s: string): (n: nat)
    ensures n <= |s|
    ensures forall i :: 0 <= i < n ==> IsSeparator(s[i])
    ensures n < |s| ==> !IsSeparator(s[n])
  {
    if s != [] && IsSeparator(s[0]) then 1 + LeadingSeparators(s[1..]) else 0
  }

  /** The length of the leading run of non-separator characters. */
  function WordLength(s: string): (n: nat)
    ensures n <= |s|
    ensures forall j :: 0 <= j < n ==> !IsSeparator(s[j])
    ensures n < |s| ==> IsSeparator(s[n])
  {
    if s == [] || IsSeparator(s[0]) then 0 else 1 + WordLength(s[1..])
  }

  /**
   * The non-empty pieces of `re.split(r'\s+|,|;|\||\t', s)`: the maximal runs
   * of non-separator characters, in order.
   */
  function Tokens(s: string): (ts: seq<string>)
    ensures forall k :: 0 <= k < |ts| ==> IsWord(ts[k])
    decreases |s|
  {
    var r := s[LeadingSeparators(s)..];
    if r == [] then []
    else
      var n := WordLength(r);
      [r[..n]] + Tokens(r[n..])
  }

  /** Stripping leaves text that already starts and ends with a non-space unchanged. */
  lemma StripTrimmed(s: string)
    requires s != [] && !IsSpace(s[0]) && !IsSpace(s[|s| - 1])
    ensures Strip(s) == s
  {
    assert LeadingSpaces(s) == 0;
    assert TrailingSpaces(s) == 0;
  }

  /** Stripping the text from `k` on leaves the text from the first non-space at or after `k`. */
  lemma LStripAfter(s: string, k: nat)
    requires k <= |s|
    ensures LStrip(s[k..]) == s[k + LeadingSpaces(s[k..])..]
  {
    var j := LeadingSpaces(s[k..]);
    assert s[k..][j..] == s[k + j..];
  }

  /** `a + [c] + b` finds `c` at `|a|` when `a` does not contain it. */
  lemma IndexOfAfter(a: string, c: char, b: string)
    requires c !in a
    ensures IndexOf(a + [c] + b, c) == |a|
  {
    var s := a + [c] + b;
    var i := IndexOf(s, c);
    assert s[|a|] == c;
  }

  /** A word on its own is one token. */
  lemma TokensOfWord(w: string)
    requires IsWord(w)
    ensures Tokens(w) == [w]
  {
    assert LeadingSeparators(w) == 0;
    assert WordLength(w) == |w|;
    assert w[..|w|] == w && w[|w|..] == [];
    assert Tokens([]) == [];
  }

  /** A word followed by a separator contributes exactly itself as the next token. */
  lemma TokensOfWordThen(w: string, c: char, rest: string)
    requires IsWord(w) && IsSeparator(c)
    ensures Tokens(w + [c] + rest) == [w] + Tokens(rest)
  {
    var s := w + [c] + rest;
    assert s[0] == w[0];
    assert LeadingSeparators(s) == 0;
    var n := WordLength(s);
    assert s[|w|] == c;
    assert n == |w|;
    assert s[..n] == w;
    assert s[n..] == [c] + rest;
    TokensSkipSeparator(c, rest);
  }

  /** A leading separator produces no token. */
  lemma TokensSkipSeparator(c: char, rest: string)
    requires IsSeparator(c)
    ensures Tokens([c] + rest) == Tokens(rest)
  {
    var s := [c] + rest;
    assert s[1..] == rest;
    assert LeadingSeparators(s) == 1 + LeadingSeparators(rest);
    assert s[LeadingSeparators(s)..] == rest[LeadingSeparators(rest)..];
  }

  /** A pair found anywhere makes `IndexOfPair` report a hit. */
  lemma PairFound(s: string, a: char, b: char, k: nat)
    requires k + 1 < |s| && s[k] == a && s[k + 1] == b
    ensures IndexOfPair(s, a, b) <= k
  {
  }

  /** Without its first character the pair never occurs. */
  lemma PairAbsent(s: string, a: char, b: char)
    requires a !in s
    ensures IndexOfPair(s, a, b) == |s|
  {
  }

  /** Stripping only removes whitespace, so a pair of non-space characters survives it. */
  lemma StripKeepsPair(s: string, a: char, b: char, k: nat)
    requires !IsSpace(a) && !IsSpace(b)
    requires k + 1 < |s| && s[k] == a && s[k + 1] == b
    ensures IndexOfPair(Strip(s), a, b) < |Strip(s)|
  {
    var lead := LeadingSpaces(s);
    assert lead <= k;
    var l := LStrip(s);
    assert l[k - lead] == a && l[k - lead + 1] == b;
    var trail := TrailingSpaces(l);
    assert k - lead + 1 < |l| - trail;
    var r := Strip(s);
    assert r[k - lead] == a && r[k - lead + 1] == b;
    PairFound(r, a, b, k - lead);
  }

  /** Text made only of separators yields no token. */
  lemma {:induction false} NoTokensInSeparators(s: string)
    requires forall i :: 0 <= i < |s| ==> IsSeparator(s[i])
    ensures Tokens(s) == []
  {
    assert LeadingSeparators(s) == |s|;
  }

  /** Two words with one separator between them are two tokens. */
  lemma TwoTokens(w1: string, c: char, w2: string)
    requires IsWord(w1) && IsSeparator(c) && IsWord(w2)
    ensures Tokens(w1 + [c] + w2) == [w1, w2]
  {
    TokensOfWordThen(w1, c, w2);
    TokensOfWord(w2);
  }

  /** One leading space in front of already-trimmed text is all that stripping removes. */
  lemma StripLeadingSpace(x: string)
    requires x != [] && !IsSpace(x[0]) && !IsSpace(x[|x| - 1])
    ensures Strip([' '] + x) == x
  {
    var s := [' '] + x;
    assert s[1..] == x;
    assert LeadingSpaces(s) == 1;
    StripTrimmed(x);
  }
}
