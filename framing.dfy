/**
 * The stream framer of the ingestion client (tcpclient.py:146-154): each
 * decoded chunk is appended to the carry-over buffer, the buffer is cut with
 * `str.splitlines()`, and an unterminated last piece is kept for the next
 * chunk.
 *
 * `splitlines` is modelled with its full set of line boundaries; the test at
 * tcpclient.py:151 only looks for '\n' and '\r', and the lemmas at the end
 * show what that mismatch does.
 */
module Framing {

  /** The line boundaries of Python's `str.splitlines`. */
  predicate IsLineBreak(c: char) {
    || c == '\n'
    || c == '\r'
    || c == '\U{0b}'
    || c == '\U{0c}'
    || '\U{1c}' <= c <= '\U{1e}'
    || c == '\U{85}'
    || c == '\U{2028}'
    || c == '\U{2029}'
  }

  /** A complete line: no boundary character inside. */
  predicate NoBreaks(s: string) {
    forall i :: 0 <= i < |s| ==> !IsLineBreak(s[i])
  }

  /** Text whose only line boundary is '\n'. */
  predicate OnlyNewlines(s: string) {
    forall i :: 0 <= i < |s| ==> (IsLineBreak(s[i]) ==> s[i] == '\n')
  }

  /** The index of the first line boundary in `s`, or `|s|`. */
  function FirstBreak(s: string): (i: nat)
    ensures i <= |s|
    ensures forall j :: 0 <= j < i ==> !IsLineBreak(s[j])
    ensures i < |s| ==> IsLineBreak(s[i])
  {
    if s == [] || IsLineBreak(s[0]) then 0 else 1 + FirstBreak(s[1..])
  }

  /** The length of the boundary at `i`: two for "\r\n", one otherwise. */
  function BreakWidth(s: string, i: nat): (w: nat)
    requires i < |s|
    ensures 1 <= w && i + w <= |s|
  {
    if s[i] == '\r' && i + 1 < |s| && s[i + 1] == '\n' then 2 else 1
  }

  /** `s.splitlines()`: the lines of `s` with their boundaries removed; no empty last line after a final boundary. */
  function SplitLines(s: string): (lines: seq<string>)
    ensures forall k :: 0 <= k < |lines| ==> NoBreaks(lines[k])
    ensures s != [] <==> lines != []
    decreases |s|
  {
    if s == [] then []
    else
      var i := FirstBreak(s);
      if i == |s| then [s]
      else [s[..i]] + SplitLines(s[i + BreakWidth(s, i)..])
  }

  /** The lines joined back with a '\n' after each. */
  function JoinLines(lines: seq<string>): string {
    if lines == [] then [] else lines[0] + ['\n'] + JoinLines(lines[1..])
  }

  /** `buffer.endswith("\n") or buffer.endswith("\r")` */
  predicate EndsWithNewline(s: string) {
    s != [] && (s[|s| - 1] == '\n' || s[|s| - 1] == '\r')
  }

  /**
   * One framing step: the lines handed on and the new carry-over buffer.
   * The buffer is cleared after a final '\n' or '\r'; otherwise the last
   * piece of `splitlines` is popped back into it.
   */
  function Frame(buffer: string, text: string): (r: (seq<string>, string))
    ensures forall k :: 0 <= k < |r.0| ==> NoBreaks(r.0[k])
    ensures NoBreaks(r.1)
  {
    FrameAll(buffer + text)
  }

  /** The framing step on `buffer + text`, which is all it depends on. */
  function FrameAll(all: string): (r: (seq<string>, string))
    ensures forall k :: 0 <= k < |r.0| ==> NoBreaks(r.0[k])
    ensures NoBreaks(r.1)
  {
    var lines := SplitLines(all);
    if EndsWithNewline(all) then (lines, [])
    else if lines == [] then ([], [])
    else (lines[..|lines| - 1], lines[|lines| - 1])
  }

  /** A complete line and its '\n' are split off as one line. */
  lemma {:induction false} SplitLinesStep(l: string, tail: string)
    requires NoBreaks(l)
    ensures SplitLines(l + ['\n'] + tail) == [l] + SplitLines(tail)
  {
    var s := l + ['\n'] + tail;
    assert forall j :: 0 <= j < |l| ==> s[j] == l[j];
    assert s[|l|] == '\n';
    assert FirstBreak(s) == |l|;
    assert BreakWidth(s, |l|) == 1;
    assert s[..|l|] == l;
    assert s[|l| + 1..] == tail;
  }

  /** Complete lines in front of any text are split off unchanged, whatever the text holds. */
  lemma {:induction false} SplitAfterLines(lines: seq<string>, x: string)
    requires forall k :: 0 <= k < |lines| ==> NoBreaks(lines[k])
    ensures SplitLines(JoinLines(lines) + x) == lines + SplitLines(x)
  {
    if lines == [] {
      assert JoinLines(lines) + x == x;
    } else {
      var tail := JoinLines(lines[1..]) + x;
      calc {
        SplitLines(JoinLines(lines) + x);
        { assert JoinLines(lines) + x == lines[0] + ['\n'] + tail; }
        SplitLines(lines[0] + ['\n'] + tail);
        { SplitLinesStep(lines[0], tail); }
        [lines[0]] + SplitLines(tail);
        { SplitAfterLines(lines[1..], x); }
        [lines[0]] + (lines[1..] + SplitLines(x));
        { assert lines == [lines[0]] + lines[1..]; }
        lines + SplitLines(x);
      }
    }
  }

  /** For '\n'-only text, the text up to its first '\n' is the first line. */
  lemma {:induction false} FirstNewline(s: string)
    requires OnlyNewlines(s) && FirstBreak(s) < |s|
    ensures var i := FirstBreak(s);
            s == s[..i] + ['\n'] + s[i + 1..] && NoBreaks(s[..i]) && OnlyNewlines(s[i + 1..])
  {
    var i := FirstBreak(s);
    assert s[i] == '\n';
    assert s == s[..i] + [s[i]] + s[i + 1..];
  }

  /** `JoinLines` of all but the last line, then the last line, for '\n'-only text without a final '\n'. */
  predicate JoinsBack(lines: seq<string>, s: string) {
    if s == [] || s[|s| - 1] == '\n' then JoinLines(lines) == s
    else lines != [] && JoinLines(lines[..|lines| - 1]) + lines[|lines| - 1] == s
  }

  /**
   * For '\n'-only text, splitting and joining give the text back: all of it
   * when it ends in '\n', all but the unterminated last line otherwise.
   */
  lemma {:induction false} JoinSplit(s: string)
    requires OnlyNewlines(s)
    ensures JoinsBack(SplitLines(s), s)
    decreases |s|
  {
    if s != [] {
      var i := FirstBreak(s);
      if i < |s| {
        FirstNewline(s);
        var l := s[..i];
        var rest := s[i + 1..];
        SplitLinesStep(l, rest);
        JoinSplit(rest);
        JoinSplitStep(l, rest);
      } else {
        assert SplitLines(s) == [s];
        assert JoinLines([]) == [];
      }
    }
  }

  /** One line in front keeps `JoinsBack`. */
  lemma {:induction false} JoinSplitStep(l: string, rest: string)
    requires JoinsBack(SplitLines(rest), rest)
    requires SplitLines(l + ['\n'] + rest) == [l] + SplitLines(rest)
    ensures JoinsBack(SplitLines(l + ['\n'] + rest), l + ['\n'] + rest)
  {
    var s := l + ['\n'] + rest;
    var rl := SplitLines(rest);
    var lines := [l] + rl;
    assert lines[1..] == rl;
    assert JoinLines(lines) == l + ['\n'] + JoinLines(rl);
    if rest != [] {
      assert s[|s| - 1] == rest[|rest| - 1];
      if rest[|rest| - 1] != '\n' {
        JoinSplitOpenStep(l, rl, rest);
      }
    }
  }

  /** The unterminated case of `JoinSplitStep`. */
  lemma {:induction false} JoinSplitOpenStep(l: string, rl: seq<string>, rest: string)
    requires rl != [] && JoinLines(rl[..|rl| - 1]) + rl[|rl| - 1] == rest
    ensures var lines := [l] + rl;
            JoinLines(lines[..|lines| - 1]) + lines[|lines| - 1] == l + ['\n'] + rest
  {
    var lines := [l] + rl;
    var init := lines[..|lines| - 1];
    assert init[0] == l;
    assert init[1..] == rl[..|rl| - 1];
    assert JoinLines(init) == l + ['\n'] + JoinLines(rl[..|rl| - 1]);
    assert lines[|lines| - 1] == rl[|rl| - 1];
  }

  /**
   * For '\n'-only text, nothing is lost or invented: the old buffer plus the
   * chunk is exactly the lines handed on, each with its '\n', followed by the
   * new buffer.
   */
  lemma {:induction false} FrameReconstructs(buffer: string, text: string)
    requires OnlyNewlines(buffer + text)
    ensures buffer + text == JoinLines(Frame(buffer, text).0) + Frame(buffer, text).1
  {
    var all := buffer + text;
    JoinSplit(all);
  }

  /** Joined lines end in '\n'. */
  lemma {:induction false} JoinEndsWithNewline(lines: seq<string>)
    requires lines != []
    ensures JoinLines(lines) != [] && JoinLines(lines)[|JoinLines(lines)| - 1] == '\n'
  {
    var j := JoinLines(lines);
    var rest := JoinLines(lines[1..]);
    assert j == lines[0] + ['\n'] + rest;
    if lines[1..] != [] {
      JoinEndsWithNewline(lines[1..]);
      assert j[|j| - 1] == rest[|rest| - 1];
    }
  }

  /** Framing text that starts with complete lines hands those lines on first and frames the rest as if alone. */
  lemma {:induction false} FrameAfterLines(lines: seq<string>, rest: string)
    requires forall k :: 0 <= k < |lines| ==> NoBreaks(lines[k])
    ensures FrameAll(JoinLines(lines) + rest) == (lines + FrameAll(rest).0, FrameAll(rest).1)
  {
    SplitAfterLines(lines, rest);
    if rest == [] {
      FrameAfterLinesAlone(lines);
    } else {
      FrameAfterLinesMore(lines, rest);
    }
  }

  lemma {:induction false} FrameAfterLinesAlone(lines: seq<string>)
    requires forall k :: 0 <= k < |lines| ==> NoBreaks(lines[k])
    requires SplitLines(JoinLines(lines) + []) == lines + SplitLines([])
    ensures FrameAll(JoinLines(lines) + []) == (lines, [])
  {
    var all := JoinLines(lines) + [];
    assert all == JoinLines(lines);
    assert SplitLines(all) == lines;
    if lines != [] {
      JoinEndsWithNewline(lines);
      assert EndsWithNewline(all);
    }
  }

  lemma {:induction false} FrameAfterLinesMore(lines: seq<string>, rest: string)
    requires rest != []
    requires SplitLines(JoinLines(lines) + rest) == lines + SplitLines(rest)
    ensures FrameAll(JoinLines(lines) + rest) == (lines + FrameAll(rest).0, FrameAll(rest).1)
  {
    EndsLikeLastPart(JoinLines(lines), rest);
    DropLastOfAppend(lines, SplitLines(rest));
  }

  // Proof steps for FrameAfterLinesMore: sequence identities, not
  // properties of the framing itself.

  /** Whether text ends a line depends only on its last non-empty part. */
  lemma EndsLikeLastPart(a: string, b: string)
    requires b != []
    ensures EndsWithNewline(a + b) == EndsWithNewline(b)
  {
    assert (a + b)[|a + b| - 1] == b[|b| - 1];
  }

  /** Popping the last line off two joined lists of lines pops it off the second. */
  lemma DropLastOfAppend(a: seq<string>, b: seq<string>)
    requires b != []
    ensures (a + b)[..|a + b| - 1] == a + b[..|b| - 1]
    ensures (a + b)[|a + b| - 1] == b[|b| - 1]
  {
  }

  /**
   * Chunk boundaries do not matter once the first part is '\n'-only: framing
   * `t1` and then `t2` hands on the same lines, and keeps the same buffer, as
   * framing `t1 + t2` at once.
   */
  lemma {:induction false} ChunkSplitInvariant(buffer: string, t1: string, t2: string)
    requires OnlyNewlines(buffer + t1)
    ensures var (l1, b1) := Frame(buffer, t1);
            var (l2, b2) := Frame(b1, t2);
            Frame(buffer, t1 + t2) == (l1 + l2, b2)
  {
    var (l1, b1) := Frame(buffer, t1);
    FrameReconstructs(buffer, t1);
    assert buffer + (t1 + t2) == (buffer + t1) + t2;
    assert buffer + (t1 + t2) == JoinLines(l1) + (b1 + t2);
    FrameAfterLines(l1, b1 + t2);
  }

  /** An unterminated piece of text is held back whole. */
  lemma {:induction false} PartialLineHeld(w: string)
    requires w != [] && NoBreaks(w)
    ensures Frame([], w) == ([], w)
  {
    assert [] + w == w;
    assert FirstBreak(w) == |w|;
  }

  /** One line and one boundary after it. */
  lemma {:induction false} SplitOneLine(w: string, c: char)
    requires NoBreaks(w) && IsLineBreak(c) && c != '\r'
    ensures SplitLines(w + [c]) == [w]
  {
    var s := w + [c];
    assert forall j :: 0 <= j < |w| ==> s[j] == w[j];
    assert s[|w|] == c;
    assert FirstBreak(s) == |w|;
    assert s[..|w|] == w;
    assert s[|w| + 1..] == [];
  }

  /**
   * A "\r\n" cut between two chunks: the '\r' ends the line and clears the
   * buffer, and the '\n' then arrives as an empty line of its own, which
   * "\r\n" in one chunk would not produce.
   */
  lemma {:induction false} CrLfAcrossChunks(w: string)
    requires NoBreaks(w)
    ensures Frame([], w + ['\r']) == ([w], [])
    ensures Frame([], ['\n']) == ([[]], [])
    ensures Frame([], w + ['\r', '\n']) == ([w], [])
  {
    var s := w + ['\r'];
    assert [] + s == s;
    assert forall j :: 0 <= j < |w| ==> s[j] == w[j];
    assert s[|w|] == '\r';
    assert FirstBreak(s) == |w|;
    assert BreakWidth(s, |w|) == 1;
    assert s[..|w|] == w && s[|w| + 1..] == [];
    assert SplitLines(s) == [w];
    var n: string := ['\n'];
    assert [] + n == n;
    assert SplitLines(n) == [[]] by {
      SplitOneLine([], '\n');
    }
    var t := w + ['\r', '\n'];
    assert [] + t == t;
    assert forall j :: 0 <= j < |w| ==> t[j] == w[j];
    assert t[|w|] == '\r';
    assert FirstBreak(t) == |w|;
    assert BreakWidth(t, |w|) == 2;
    assert t[..|w|] == w && t[|w| + 2..] == [];
  }

  /**
   * A line ended by a boundary other than '\n' or '\r' (here a vertical tab)
   * fails the test at tcpclient.py:151, so the complete line is popped back
   * into the buffer and later merges with the next line.
   */
  lemma {:induction false} VerticalTabMerges(w: string, next: string)
    requires w != [] && NoBreaks(w) && NoBreaks(next)
    ensures Frame([], w + ['\U{0b}']) == ([], w)
    ensures Frame(w, next + ['\n']) == ([w + next], [])
  {
    var s := w + ['\U{0b}'];
    assert [] + s == s;
    SplitOneLine(w, '\U{0b}');
    var t := w + (next + ['\n']);
    assert t == (w + next) + ['\n'];
    assert NoBreaks(w + next) by {
      forall j | 0 <= j < |w + next| ensures !IsLineBreak((w + next)[j]) {
        if j >= |w| {
          assert (w + next)[j] == next[j - |w|];
        }
      }
    }
    SplitOneLine(w + next, '\n');
  }
}
