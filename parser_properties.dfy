/**
 * What `parse_line` (tcpclient.py:33-119) promises, stated about the
 * specification `LineParser.Parse` and its stages.
 */
module ParserProperties {
  import opened Wrappers
  import opened Text
  import opened LineParser

  /** A line made only of whitespace and the separators `,;|` carries neither a device nor a verdict. */
  lemma NoContent(line: string)
    requires forall i :: 0 <= i < |line| ==> IsSeparator(line[i])
    ensures Parse(line) == Success(Parsed(None, None))
  {
    if line != [] {
      var lead := LeadingSpaces(line);
      var s := Strip(line);
      assert forall i :: 0 <= i < |s| ==> s[i] == line[lead + i];
      assert BracketPrefix(s) == 0;
      assert s[0..] == s;
      assert IndexOf(s, ':') == |s|;
      NoTokensInSeparators(s);
    }
  }

  /** The status comes from the first token that reads PASS or FAIL in any letter case. */
  lemma StatusFromFirstVerdict(tokens: seq<string>, i: nat)
    requires i < |tokens| && IsVerdictToken(tokens[i])
    requires forall j :: 0 <= j < i ==> !IsVerdictToken(tokens[j])
    ensures FromTokens(tokens).status == VerdictOf(tokens[i])
    ensures Upper(tokens[i]) == "PASS" ==> FromTokens(tokens).status == Some(Pass)
    ensures Upper(tokens[i]) == "FAIL" ==> FromTokens(tokens).status == Some(Fail)
  {
    assert FirstIndex(tokens, IsVerdictToken) == i;
  }

  /** Without a PASS/FAIL token there is no status. */
  lemma NoVerdictNoStatus(tokens: seq<string>)
    requires forall j :: 0 <= j < |tokens| ==> !IsVerdictToken(tokens[j])
    ensures FromTokens(tokens).status == None
  {
    if tokens != [] {
      assert FirstIndex(tokens, IsVerdictToken) == |tokens|;
    }
  }

  /** `UpperChar` maps a letter to a capital and leaves everything else alone. */
  lemma UpperCharShape(c: char)
    ensures IsAsciiLetter(c) ==> 'A' <= UpperChar(c) <= 'Z'
    ensures !IsAsciiLetter(c) ==> UpperChar(c) == c
    ensures IsSeparator(UpperChar(c)) <==> IsSeparator(c)
  {
  }

  /** After "SN", every character but a ':' is a letter, a digit or a '-'. */
  lemma SerialTailChars(t: string)
    requires IsSerial(t)
    ensures forall k :: 2 <= k < |t| && t[k] != ':' ==> IsSerialChar(t[k])
  {
    if AllSerialChars(t[2..]) {
      forall k | 2 <= k < |t|
        ensures IsSerialChar(t[k])
      {
        assert t[2..][k - 2] == t[k];
      }
    } else {
      forall k | 3 <= k < |t|
        ensures IsSerialChar(t[k])
      {
        assert t[3..][k - 3] == t[k];
      }
    }
  }

  /** A serial token's device is "SN" followed by capitals and digits only (`SN-AB-1` gives `SNAB1`). */
  lemma SerialDeviceShape(t: string)
    requires IsSerial(t)
    ensures |SerialDevice(t)| >= 2
    ensures SerialDevice(t)[0] == 'S' && SerialDevice(t)[1] == 'N'
    ensures forall i :: 0 <= i < |SerialDevice(t)| ==>
              'A' <= SerialDevice(t)[i] <= 'Z' || IsAsciiDigit(SerialDevice(t)[i])
  {
    assert t[1..][1..] == t[2..];
    var tail := DropPunctuation(t[2..]);
    var d := DropPunctuation(t);
    assert t[0] == 's' || t[0] == 'S';
    assert t[1] == 'n' || t[1] == 'N';
    assert DropPunctuation(t[1..]) == [t[1]] + tail;
    assert d == [t[0], t[1]] + tail;
    SerialTailChars(t);
    forall i | 0 <= i < |tail|
      ensures IsAsciiLetter(tail[i]) || IsAsciiDigit(tail[i])
    {
      var j :| 0 <= j < |t[2..]| && t[2..][j] == tail[i];
      assert t[2 + j] == tail[i];
    }
    forall i | 0 <= i < |d|
      ensures 'A' <= Upper(d)[i] <= 'Z' || IsAsciiDigit(Upper(d)[i])
    {
      UpperCharShape(d[i]);
      if i >= 2 {
        assert d[i] == tail[i - 2];
      }
    }
  }

  /** Removing punctuation works character by character, so it distributes over concatenation. */
  lemma {:induction false} DropPunctuationAppend(a: string, b: string)
    ensures DropPunctuation(a + b) == DropPunctuation(a) + DropPunctuation(b)
    decreases |a|
  {
    if a == [] {
      assert a + b == b;
    } else {
      assert (a + b)[0] == a[0] && (a + b)[1..] == a[1..] + b;
      DropPunctuationAppend(a[1..], b);
    }
  }

  /** Text without `:`, `-` or spaces is left as it is. */
  lemma {:induction false} DropPunctuationKeeps(s: string)
    requires forall i :: 0 <= i < |s| ==> s[i] != ':' && s[i] != '-' && s[i] != ' '
    ensures DropPunctuation(s) == s
    decreases |s|
  {
    if s != [] {
      DropPunctuationKeeps(s[1..]);
    }
  }

  /** One punctuation character between two pieces disappears. */
  lemma DropPunctuationAround(x: string, c: char, y: string)
    requires c == ':' || c == '-' || c == ' '
    ensures DropPunctuation(x + [c] + y) == DropPunctuation(x) + DropPunctuation(y)
  {
    DropPunctuationAppend(x + [c], y);
    DropPunctuationAppend(x, [c]);
    assert [c][1..] == [];
  }

  /** Every device `parse_line` reports is one non-empty token: no whitespace, `,`, `;` or `|` inside. */
  lemma DeviceIsWord(tokens: seq<string>)
    requires tokens != []
    requires forall k :: 0 <= k < |tokens| ==> IsWord(tokens[k])
    ensures DeviceOf(tokens).Some? ==> IsWord(DeviceOf(tokens).value)
  {
    var i := FirstIndex(tokens, IsMachineCode);
    if i < |tokens| {
      var u := Upper(tokens[i]);
      forall k | 0 <= k < |u| ensures !IsSeparator(u[k]) {
        UpperCharShape(tokens[i][k]);
      }
    } else {
      var j := FirstIndex(tokens, IsSerial);
      if j < |tokens| {
        SerialDeviceShape(tokens[j]);
      }
    }
  }

  /**
   * The fallback never fires on an all-capitals word: once the machine-code,
   * serial and bare-SN matchers have all failed, the two escape clauses of
   * tcpclient.py:116 (`[SM]\d+`, a leading "SN") can no longer hold.
   */
  lemma FallbackGuard(tokens: seq<string>)
    requires tokens != []
    requires FirstMachineCode(tokens) == None && FirstSerial(tokens) == None
    requires Upper(tokens[0]) != "SN"
    ensures FallbackAllowed(tokens[0]) <==> !IsVerdictToken(tokens[0]) && !IsUpperWord(tokens[0])
  {
    var t := tokens[0];
    assert !IsMachineCode(t) && !IsSerial(t);
    if IsUpperWord(t) {
      CapitalsStartingWithSN(t);
    }
  }

  /** An all-capitals word that starts with "SN" is the bare SN or a serial token. */
  lemma CapitalsStartingWithSN(t: string)
    requires IsUpperWord(t)
    ensures |t| >= 2 && Upper(t)[..2] == "SN" ==> Upper(t) == "SN" || IsSerial(t)
  {
    assert Upper(t) == t;
    if |t| >= 3 {
      assert AllSerialChars(t[2..]);
    }
  }

  /**
   * The device priority of tcpclient.py:88-117, each step stated by the
   * position of the token that wins.
   */
  lemma MachineCodeWins(tokens: seq<string>, i: nat)
    requires i < |tokens| && IsMachineCode(tokens[i])
    requires forall j :: 0 <= j < i ==> !IsMachineCode(tokens[j])
    ensures DeviceOf(tokens) == Some(Upper(tokens[i]))
  {
    assert FirstIndex(tokens, IsMachineCode) == i;
  }

  lemma SerialWinsNext(tokens: seq<string>, i: nat)
    requires forall j :: 0 <= j < |tokens| ==> !IsMachineCode(tokens[j])
    requires i < |tokens| && IsSerial(tokens[i])
    requires forall j :: 0 <= j < i ==> !IsSerial(tokens[j])
    ensures DeviceOf(tokens) == Some(SerialDevice(tokens[i]))
  {
    assert FirstIndex(tokens, IsMachineCode) == |tokens|;
    assert FirstIndex(tokens, IsSerial) == i;
  }

  /** With no code and no serial anywhere: a leading bare SN, else the first token unless it is a verdict or all capitals. */
  lemma FirstTokenLast(tokens: seq<string>)
    requires tokens != []
    requires forall j :: 0 <= j < |tokens| ==> !IsMachineCode(tokens[j]) && !IsSerial(tokens[j])
    ensures Upper(tokens[0]) == "SN" ==> DeviceOf(tokens) == Some("SN")
    ensures Upper(tokens[0]) != "SN" ==>
              DeviceOf(tokens) ==
                if !IsVerdictToken(tokens[0]) && !IsUpperWord(tokens[0]) then Some(tokens[0]) else None
  {
    assert FirstIndex(tokens, IsMachineCode) == |tokens|;
    assert FirstIndex(tokens, IsSerial) == |tokens|;
    if Upper(tokens[0]) != "SN" {
      FallbackGuard(tokens);
    }
  }

  /**
   * The IndexError of tcpclient.py:64 needs a bracket group: when the
   * stripped line does not open with one, the "):" that line 63 sees in the
   * raw line is still there to split on.
   */
  lemma FailureNeedsBracket(line: string)
    ensures Parse(line).Failure? ==> BracketPrefix(Strip(line)) > 0
  {
    var s := Strip(line);
    if line != [] && BracketPrefix(s) == 0 && HasCloseColon(line) {
      assert StripBrackets(s) == s;
      StripKeepsPair(line, ')', ':', IndexOfPair(line, ')', ':'));
    }
  }

  /** One leading bracket group followed by a single space is removed, and the loop stops at the next non-bracket. */
  lemma OneBracketGroup(inner: string, rest: string)
    requires ']' !in inner
    requires rest != [] && !IsSpace(rest[0]) && rest[0] != '['
    ensures StripBrackets(['['] + inner + [']', ' '] + rest) == rest
  {
    var s := ['['] + inner + [']', ' '] + rest;
    assert s == ['['] + inner + [']'] + ([' '] + rest);
    IndexOfAfter(['['] + inner, ']', [' '] + rest);
    var k := |inner| + 2;
    assert s[k..] == [' '] + rest;
    assert LeadingSpaces(s[k..]) == 1;
    DropBracketGroup(s);
    assert s[k + 1..] == rest;
    assert BracketPrefix(rest) == 0;
    assert rest[0..] == rest;
  }

  /** A header without "):" in the line is dropped up to its colon when a letter follows. */
  lemma HeaderDropped(line: string, h: string, body: string)
    requires ':' !in h && |h| <= 80
    requires !HasCloseColon(line)
    requires HasAsciiLetter(body)
    ensures StripHeader(line, h + [':'] + body) == Success(Strip(body))
  {
    var s := h + [':'] + body;
    IndexOfAfter(h, ':', body);
    assert s[|h| + 1..] == body;
  }

  /** Without a letter after the colon, the header stays. */
  lemma HeaderKept(line: string, h: string, body: string)
    requires ':' !in h
    requires !HasCloseColon(line)
    requires !HasAsciiLetter(body)
    ensures StripHeader(line, h + [':'] + body) == Success(h + [':'] + body)
  {
    var s := h + [':'] + body;
    IndexOfAfter(h, ':', body);
    assert s[|h| + 1..] == body;
  }

  /**
   * With a "):" in the raw line and in the text, everything up to and
   * including the FIRST "):" of the text is dropped, and the rest stripped.
   */
  lemma CloseColonDropped(line: string, h: string, body: string)
    requires ':' !in h && |h| + 1 <= 80
    requires HasCloseColon(line)
    ensures StripHeader(line, h + [')', ':'] + body) == Success(Strip(body))
  {
    var s := h + [')', ':'] + body;
    assert s == (h + [')']) + [':'] + body;
    IndexOfAfter(h + [')'], ':', body);
    PairFound(s, ')', ':', |h|);
    assert forall j :: 1 <= j <= |h| ==> s[j] != ':';
    assert IndexOfPair(s, ')', ':') == |h|;
    assert s[|h| + 2..] == body;
  }

  /** A "):" in the raw line but none in the text to split raises the IndexError. */
  lemma HeaderSplitFails(line: string, s: string)
    requires HasLogHeader(s) && HasCloseColon(line)
    requires !HasCloseColon(s)
    ensures StripHeader(line, s) == Failure(SplitIndexError)
  {
  }

  /** A word never starts or ends with whitespace. */
  lemma WordEnds(w: string)
    requires IsWord(w)
    ensures !IsSpace(w[0]) && !IsSpace(w[|w| - 1])
  {
    assert !IsSeparator(w[0]) && !IsSeparator(w[|w| - 1]);
  }

  /** A lone word with no colon and no leading '[' is parsed as its own single token. */
  lemma PlainWord(w: string)
    requires IsWord(w) && w[0] != '[' && ':' !in w
    ensures Parse(w) == Success(FromTokens([w]))
  {
    WordEnds(w);
    PlainLine(w);
    TokensOfWord(w);
  }

  /** Two words with one space between them, no colon and no leading '[', are parsed as those two tokens. */
  lemma PlainTwoWords(w1: string, w2: string)
    requires IsWord(w1) && IsWord(w2) && w1[0] != '['
    requires ':' !in w1 && ':' !in w2
    ensures Parse(w1 + [' '] + w2) == Success(FromTokens([w1, w2]))
  {
    var line := w1 + [' '] + w2;
    WordEnds(w1);
    WordEnds(w2);
    assert line[0] == w1[0] && line[|line| - 1] == w2[|w2| - 1];
    assert ':' !in line by {
      forall i | 0 <= i < |line| ensures line[i] != ':' {
        if i < |w1| {
          assert line[i] == w1[i];
        } else if i > |w1| {
          assert line[i] == w2[i - |w1| - 1];
        }
      }
    }
    PlainLine(line);
    TwoTokens(w1, ' ', w2);
  }

  /** Proof step: a ')' in a concatenation lies in one of its pieces. */
  lemma NoCloseIn3(a: string, b: string, c: string)
    requires ')' !in a && ')' !in b && ')' !in c
    ensures ')' !in a + b + c
  {
  }

  /**
   * A short header word and its colon are dropped when a letter follows:
   * `h:w1 w2` is parsed as the tokens w1, w2.
   */
  lemma HeaderTwoWords(h: string, w1: string, w2: string)
    requires IsWord(h) && h[0] != '[' && ':' !in h && |h| <= 80
    requires IsWord(w1) && IsWord(w2) && HasAsciiLetter(w2)
    requires ')' !in h && ')' !in w1 && ')' !in w2
    ensures Parse(h + [':'] + w1 + [' '] + w2) == Success(FromTokens([w1, w2]))
  {
    var line := h + [':'] + w1 + [' '] + w2;
    HeaderWordsPayload(h, w1, w2);
    assert Payload(line) == Success(w1 + [' '] + w2);
    TwoTokens(w1, ' ', w2);
  }

  /** The header word and its colon are cut off and the two words are left. */
  lemma HeaderWordsPayload(h: string, w1: string, w2: string)
    requires IsWord(h) && h[0] != '[' && ':' !in h && |h| <= 80
    requires IsWord(w1) && IsWord(w2) && HasAsciiLetter(w2)
    requires ')' !in h && ')' !in w1 && ')' !in w2
    ensures Payload(h + [':'] + w1 + [' '] + w2) == Success(w1 + [' '] + w2)
  {
    var body := w1 + [' '] + w2;
    var line := h + [':'] + body;
    assert line == h + [':'] + w1 + [' '] + w2;
    TwoWordsBody(w1, w2);
    HeaderLineUntouched(h, body);
    NoCloseInHeaderLine(h, body);
    HeaderDropped(line, h, body);
  }

  /** Two words around a space: trimmed, with a letter and no ')'. */
  lemma TwoWordsBody(w1: string, w2: string)
    requires IsWord(w1) && IsWord(w2) && HasAsciiLetter(w2)
    requires ')' !in w1 && ')' !in w2
    ensures var body := w1 + [' '] + w2;
            && body != [] && !IsSpace(body[|body| - 1])
            && Strip(body) == body && HasAsciiLetter(body) && ')' !in body
  {
    var body := w1 + [' '] + w2;
    var i :| 0 <= i < |w2| && IsAsciiLetter(w2[i]);
    assert body[|w1| + 1 + i] == w2[i];
    WordEnds(w1);
    WordEnds(w2);
    assert body[0] == w1[0] && body[|body| - 1] == w2[|w2| - 1];
    StripTrimmed(body);
  }

  /** Without any ')' a header line holds no "):". */
  lemma NoCloseInHeaderLine(h: string, body: string)
    requires ')' !in h && ')' !in body
    ensures !HasCloseColon(h + [':'] + body)
  {
    var line := h + [':'] + body;
    NoCloseIn3(h, [':'], body);
    PairAbsent(line, ')', ':');
  }

  /** A line that starts with a word and ends with one is not trimmed and has no bracket group. */
  lemma HeaderLineUntouched(h: string, body: string)
    requires IsWord(h) && h[0] != '['
    requires body != [] && !IsSpace(body[|body| - 1])
    ensures StripBrackets(Strip(h + [':'] + body)) == h + [':'] + body
  {
    var line := h + [':'] + body;
    WordEnds(h);
    assert line[0] == h[0] && line[|line| - 1] == body[|body| - 1];
    StripTrimmed(line);
    assert BracketPrefix(line) == 0;
    assert line[0..] == line;
  }

  /** `h:b` with no letter in `b` keeps its colon and is one token. */
  lemma HeaderKeptWord(h: string, b: string)
    requires h != [] && IsWord(h + [':'] + b) && h[0] != '[' && ':' !in h
    requires ')' !in h + [':'] + b
    requires !HasAsciiLetter(b)
    ensures Parse(h + [':'] + b) == Success(FromTokens([h + [':'] + b]))
  {
    var line := h + [':'] + b;
    WordEnds(line);
    StripTrimmed(line);
    assert BracketPrefix(line) == 0;
    assert line[0..] == line;
    PairAbsent(line, ')', ':');
    HeaderKept(line, h, b);
    TokensOfWord(line);
  }

  /** The bracket loop removes `[stamp] ` from the timestamped form. */
  lemma TimestampRemoved(stamp: string, rest: string)
    requires ']' !in stamp
    requires rest != [] && !IsSpace(rest[0]) && !IsSpace(rest[|rest| - 1]) && rest[0] != '['
    ensures StripBrackets(Strip(['['] + stamp + [']', ' '] + rest)) == rest
  {
    var line := ['['] + stamp + [']', ' '] + rest;
    assert line[|line| - 1] == rest[|rest| - 1];
    StripTrimmed(line);
    OneBracketGroup(stamp, rest);
  }

  /** None of the pieces holds a ')', so neither does the timestamped line. */
  lemma TimestampNoClose(stamp: string, h: string, w1: string, w2: string)
    requires ')' !in stamp && ')' !in h && ')' !in w1 && ')' !in w2
    ensures ')' !in ['['] + stamp + [']', ' '] + h + [':', ' '] + w1 + [' '] + w2
  {
    var line := ['['] + stamp + [']', ' '] + h + [':', ' '] + w1 + [' '] + w2;
    NoCloseIn3(['['] + stamp + [']', ' '] + h, [':', ' '] + w1 + [' '], w2);
    assert line == (['['] + stamp + [']', ' '] + h) + ([':', ' '] + w1 + [' ']) + w2;
  }

  /** A letter in the first word is a letter of the header's remainder. */
  lemma LetterAfterSpace(w1: string, w2: string)
    requires HasAsciiLetter(w1)
    ensures HasAsciiLetter([' '] + (w1 + [' '] + w2))
  {
    var body := [' '] + (w1 + [' '] + w2);
    var i :| 0 <= i < |w1| && IsAsciiLetter(w1[i]);
    assert body[1 + i] == w1[i];
  }

  /** The header `h: ` after the bracket group goes too, leaving `w1 w2`. */
  lemma TimestampPayload(stamp: string, h: string, w1: string, w2: string)
    requires ']' !in stamp && ')' !in stamp
    requires IsWord(h) && h[0] != '[' && ':' !in h && |h| <= 80 && ')' !in h
    requires IsWord(w1) && IsWord(w2) && HasAsciiLetter(w1)
    requires ')' !in w1 && ')' !in w2
    ensures Payload(['['] + stamp + [']', ' '] + h + [':', ' '] + w1 + [' '] + w2) == Success(w1 + [' '] + w2)
  {
    var words := w1 + [' '] + w2;
    var body := [' '] + words;
    var rest := h + [':'] + body;
    var line := ['['] + stamp + [']', ' '] + rest;
    assert line == ['['] + stamp + [']', ' '] + h + [':', ' '] + w1 + [' '] + w2;
    WordEnds(h);
    WordEnds(w1);
    WordEnds(w2);
    assert rest[0] == h[0] && rest[|rest| - 1] == w2[|w2| - 1];
    TimestampRemoved(stamp, rest);
    TimestampNoClose(stamp, h, w1, w2);
    PairAbsent(line, ')', ':');
    LetterAfterSpace(w1, w2);
    HeaderDropped(line, h, body);
    assert words[0] == w1[0] && words[|words| - 1] == w2[|w2| - 1];
    StripLeadingSpace(words);
  }

  /**
   * The timestamped form `[stamp] h: w1 w2`: the bracket group and the header
   * both go, leaving the tokens w1, w2.
   */
  lemma BracketHeaderTwoWords(stamp: string, h: string, w1: string, w2: string)
    requires ']' !in stamp && ')' !in stamp
    requires IsWord(h) && h[0] != '[' && ':' !in h && |h| <= 80 && ')' !in h
    requires IsWord(w1) && IsWord(w2) && HasAsciiLetter(w1)
    requires ')' !in w1 && ')' !in w2
    ensures Parse(['['] + stamp + [']', ' '] + h + [':', ' '] + w1 + [' '] + w2)
            == Success(FromTokens([w1, w2]))
  {
    TimestampPayload(stamp, h, w1, w2);
    TwoTokens(w1, ' ', w2);
  }

  /**
   * The error condition of tcpclient.py:63-64: a "):" inside the leading
   * bracket group is seen by the test on the raw line, but the text left to
   * split has none, so once that text has a header colon the split raises.
   */
  lemma CloseColonInBracketFails(inner: string, rest: string)
    requires ']' !in inner && HasCloseColon(inner)
    requires rest != [] && !IsSpace(rest[0]) && !IsSpace(rest[|rest| - 1]) && rest[0] != '['
    requires !HasCloseColon(rest) && HasLogHeader(rest)
    ensures Parse(['['] + inner + [']', ' '] + rest) == Failure(SplitIndexError)
  {
    var line := ['['] + inner + [']', ' '] + rest;
    assert line[|line| - 1] == rest[|rest| - 1];
    StripTrimmed(line);
    OneBracketGroup(inner, rest);
    assert StripBrackets(Strip(line)) == rest;
    CloseColonInGroup(inner, rest);
    HeaderSplitFails(line, rest);
    assert Payload(line) == Failure(SplitIndexError);
  }

  /** A "):" inside the bracket group is a "):" of the whole line. */
  lemma CloseColonInGroup(inner: string, rest: string)
    requires HasCloseColon(inner)
    ensures HasCloseColon(['['] + inner + [']', ' '] + rest)
  {
    var line := ['['] + inner + [']', ' '] + rest;
    var k := IndexOfPair(inner, ')', ':');
    assert line[1 + k] == inner[k] && line[2 + k] == inner[k + 1];
    PairFound(line, ')', ':', 1 + k);
  }
}
