/**
 * The line parser of the ingestion client (`parse_line`, tcpclient.py:33-119):
 * one text line in, an optional device and an optional Pass/Fail verdict out.
 *
 * `Parse` is the specification, written as a chain of small matchers; the
 * method `ParseLine` follows the source's loops and is proved equal to it.
 */
module LineParser {
  import opened Wrappers
  import opened Text

  datatype Verdict = Pass | Fail

  /** The pair `(device_or_None, status_or_None)` that `parse_line` returns. */
  datatype Parsed = Parsed(device: Option<string>, status: Option<Verdict>)

  /** `s.split('):', 1)[1]` on a string without `):` raises IndexError. */
  datatype ParseError = SplitIndexError

  /** The normalised status text stored by the sink: "Pass" or "Fail". */
  function VerdictText(v: Verdict): string {
    match v
    case Pass => "Pass"
    case Fail => "Fail"
  }

  /** `t.upper()` is "PASS" or "FAIL". */
  function VerdictOf(t: string): Option<Verdict> {
    var u := Upper(t);
    if u == "PASS" then Some(Pass) else if u == "FAIL" then Some(Fail) else None
  }

  predicate IsVerdictToken(t: string) {
    VerdictOf(t).Some?
  }

  /** `re.match(r'^[SM]\d+$', t, re.IGNORECASE)` */
  predicate IsMachineCode(t: string) {
    && |t| >= 2
    && (UpperChar(t[0]) == 'S' || UpperChar(t[0]) == 'M')
    && forall i :: 1 <= i < |t| ==> IsAsciiDigit(t[i])
  }

  predicate IsSerialChar(c: char) {
    IsAsciiLetter(c) || IsAsciiDigit(c) || c == '-'
  }

  predicate AllSerialChars(s: string) {
    forall i :: 0 <= i < |s| ==> IsSerialChar(s[i])
  }

  /**
   * `re.match(r'^(SN[:\-]?\s*([A-Za-z0-9\-]+))$', t, re.IGNORECASE)` on a token,
   * which holds no whitespace: "SN" in any case, then either a non-empty run of
   * letters, digits and '-', or a ':' and such a run. (An optional '-' is
   * already a member of the run.)
   */
  predicate IsSerial(t: string) {
    && |t| >= 3
    && UpperChar(t[0]) == 'S'
    && UpperChar(t[1]) == 'N'
    && (AllSerialChars(t[2..]) || (|t| >= 4 && t[2] == ':' && AllSerialChars(t[3..])))
  }

  /** `raw.replace(':', '').replace('-', '').replace(' ', '')` */
  function DropPunctuation(s: string): (r: string)
    ensures |r| <= |s|
    ensures forall i :: 0 <= i < |r| ==> r[i] != ':' && r[i] != '-' && r[i] != ' '
    ensures forall i :: 0 <= i < |r| ==> r[i] in s
  {
    if s == [] then []
    else if s[0] == ':' || s[0] == '-' || s[0] == ' ' then DropPunctuation(s[1..])
    else [s[0]] + DropPunctuation(s[1..])
  }

  /** The device a serial token stands for: punctuation removed, upper-cased. */
  function SerialDevice(t: string): string {
    Upper(DropPunctuation(t))
  }

  /** `re.match(r'^[A-Z]{2,}$', t)`: an all-capitals ASCII word such as INFO or TCPCLIENT. */
  predicate IsUpperWord(t: string) {
    |t| >= 2 && forall i :: 0 <= i < |t| ==> 'A' <= t[i] <= 'Z'
  }

  /** The index of the first token that satisfies `p`, or `|ts|` when none does. */
  function FirstIndex(ts: seq<string>, p: string -> bool): (i: nat)
    ensures i <= |ts|
    ensures forall j :: 0 <= j < i ==> !p(ts[j])
    ensures i < |ts| ==> p(ts[i])
  {
    if ts == [] then 0 else if p(ts[0]) then 0 else 1 + FirstIndex(ts[1..], p)
  }

  /** The verdict of the first PASS/FAIL token (tcpclient.py:80-85). */
  function FirstVerdict(tokens: seq<string>): Option<Verdict> {
    var i := FirstIndex(tokens, IsVerdictToken);
    if i < |tokens| then VerdictOf(tokens[i]) else None
  }

  /** The first machine code, upper-cased (tcpclient.py:91-94). */
  function FirstMachineCode(tokens: seq<string>): Option<string> {
    var i := FirstIndex(tokens, IsMachineCode);
    if i < |tokens| then Some(Upper(tokens[i])) else None
  }

  /** The first serial token, normalised (tcpclient.py:98-106). */
  function FirstSerial(tokens: seq<string>): Option<string> {
    var i := FirstIndex(tokens, IsSerial);
    if i < |tokens| then Some(SerialDevice(tokens[i])) else None
  }

  /** The guard of the first-token fallback (tcpclient.py:114-116). */
  predicate FallbackAllowed(first: string) {
    && !IsVerdictToken(first)
    && (|| !IsUpperWord(first)
        || IsMachineCode(first)
        || (|first| >= 2 && Upper(first)[..2] == "SN"))
  }

  /** The device priority chain of tcpclient.py:88-117; first matcher that fires wins. */
  function DeviceOf(tokens: seq<string>): Option<string>
    requires tokens != []
  {
    if FirstMachineCode(tokens).Some? then FirstMachineCode(tokens)
    else if FirstSerial(tokens).Some? then FirstSerial(tokens)
    else if Upper(tokens[0]) == "SN" then Some("SN")
    else if FallbackAllowed(tokens[0]) then Some(tokens[0])
    else None
  }

  /** A complete `[...]` group opens `s`: the test of the bracket loop and its `re.match`. */
  predicate OpensWithBracketGroup(s: string) {
    s != [] && s[0] == '[' && IndexOf(s, ']') < |s|
  }

  /** The length of the opening bracket group plus the whitespace after it. */
  function BracketGroupLength(s: string): (m: nat)
    requires OpensWithBracketGroup(s)
    ensures 0 < m <= |s|
  {
    var k := IndexOf(s, ']') + 1;
    k + LeadingSpaces(s[k..])
  }

  /**
   * The length of what the bracket loop of tcpclient.py:53-57 removes: while
   * the text opens with a complete `[...]` group, drop it and the whitespace
   * after it.
   */
  function BracketPrefix(s: string): (n: nat)
    ensures n <= |s|
    decreases |s|
  {
    if OpensWithBracketGroup(s) then
      BracketGroupLength(s) + BracketPrefix(s[BracketGroupLength(s)..])
    else
      0
  }

  function StripBrackets(s: string): string {
    s[BracketPrefix(s)..]
  }

  /** What the bracket loop leaves never opens with a complete bracket group. */
  lemma {:induction false} BracketsGone(s: string)
    ensures !OpensWithBracketGroup(StripBrackets(s))
    decreases |s|
  {
    if OpensWithBracketGroup(s) {
      var rest := s[BracketGroupLength(s)..];
      BracketsGone(rest);
      assert rest[BracketPrefix(rest)..] == s[BracketPrefix(s)..];
    }
  }

  /**
   * What the bracket loop removes ends in ']' or in whitespace, never in
   * another character: in particular never in the ')' of a "):".
   */
  lemma {:induction false} BracketPrefixEnd(s: string)
    requires BracketPrefix(s) > 0
    ensures s[BracketPrefix(s) - 1] == ']' || IsSpace(s[BracketPrefix(s) - 1])
    decreases |s|
  {
    var m := BracketGroupLength(s);
    var rest := s[m..];
    var n := BracketPrefix(rest);
    if n > 0 {
      BracketPrefixEnd(rest);
      assert rest[n - 1] == s[m + n - 1];
    } else {
      var k := IndexOf(s, ']') + 1;
      if m > k {
        assert s[k..][m - k - 1] == s[m - 1];
      }
    }
  }

  /** The guard at tcpclient.py:59: the first ':' of `s` sits at index 80 or less. */
  predicate HasLogHeader(s: string) {
    IndexOf(s, ':') < |s| && IndexOf(s, ':') <= 80
  }

  /** `'):' in s` */
  predicate HasCloseColon(s: string) {
    IndexOfPair(s, ')', ':') < |s|
  }

  /**
   * The one-shot header heuristic of tcpclient.py:59-69. The `):` test reads
   * the raw `line`, but the split works on the bracket-stripped `s`.
   */
  function StripHeader(line: string, s: string): Result<string, ParseError> {
    if !HasLogHeader(s) then Success(s)
    else if HasCloseColon(line) then
      var k := IndexOfPair(s, ')', ':');
      if k < |s| then Success(Strip(s[k + 2..])) else Failure(SplitIndexError)
    else
      var rest := s[IndexOf(s, ':') + 1..];
      if HasAsciiLetter(rest) then Success(Strip(rest)) else Success(s)
  }

  /** The text that `parse_line` tokenises: stripped, bracket groups dropped, header heuristic applied. */
  function Payload(line: string): Result<string, ParseError> {
    StripHeader(line, StripBrackets(Strip(line)))
  }

  /** What `parse_line(line)` returns, or the exception it raises. */
  function Parse(line: string): Result<Parsed, ParseError> {
    if line == [] then Success(Parsed(None, None))
    else
      match Payload(line)
      case Failure(e) => Failure(e)
      case Success(s) =>
        Success(FromTokens(Tokens(s)))
  }

  /** The result built from the tokens of the stripped text (tcpclient.py:73-119). */
  function FromTokens(tokens: seq<string>): Parsed {
    if tokens == [] then Parsed(None, None)
    else Parsed(DeviceOf(tokens), FirstVerdict(tokens))
  }

  /** One turn of the bracket loop removes exactly one bracket group and its trailing whitespace. */
  lemma DropBracketGroup(s: string)
    requires OpensWithBracketGroup(s)
    ensures LStrip(s[IndexOf(s, ']') + 1..]) == s[BracketGroupLength(s)..]
    ensures StripBrackets(s[BracketGroupLength(s)..]) == StripBrackets(s)
  {
    LStripAfter(s, IndexOf(s, ']') + 1);
    BracketsAfterGroup(s);
  }

  lemma BracketsAfterGroup(s: string)
    requires OpensWithBracketGroup(s)
    ensures StripBrackets(s[BracketGroupLength(s)..]) == StripBrackets(s)
  {
    var m := BracketGroupLength(s);
    var p := BracketPrefix(s[m..]);
    assert BracketPrefix(s) == m + p;
    DropTwice(s, m, p);
  }

  /** Proof step: dropping `m` then `p` characters drops `m + p`. */
  lemma DropTwice(s: string, m: nat, p: nat)
    requires m <= |s| && p <= |s| - m
    ensures s[m..][p..] == s[m + p..]
  {
  }

  /** The bracket loop of tcpclient.py:53-57. */
  method StripBracketGroups(s0: string) returns (s: string)
    ensures s == StripBrackets(s0)
  {
    s := s0;
    while s != [] && s[0] == '['
      invariant StripBrackets(s) == StripBrackets(s0)
      decreases |s|
    {
      var close := IndexOf(s, ']');
      if close == |s| {
        break;
      }
      var next := LStrip(s[close + 1..]);
      DropBracketGroup(s);
      assert StripBrackets(next) == StripBrackets(s);
      s := next;
    }
    NoGroupLeft(s);
  }

  lemma NoGroupLeft(s: string)
    requires !OpensWithBracketGroup(s)
    ensures StripBrackets(s) == s
  {
    assert BracketPrefix(s) == 0;
  }

  /** The status scan of tcpclient.py:80-85. */
  method ScanStatus(tokens: seq<string>) returns (status: Option<Verdict>)
    ensures status == FirstVerdict(tokens)
  {
    status := None;
    for i := 0 to |tokens|
      invariant status == None
      invariant forall j :: 0 <= j < i ==> !IsVerdictToken(tokens[j])
    {
      var u := Upper(tokens[i]);
      if u == "PASS" || u == "FAIL" {
        status := Some(if u == "PASS" then Pass else Fail);
        assert FirstIndex(tokens, IsVerdictToken) == i;
        return;
      }
    }
  }

  /** The machine-code scan of tcpclient.py:91-94. */
  method ScanMachineCode(tokens: seq<string>) returns (device: Option<string>)
    ensures device == FirstMachineCode(tokens)
  {
    device := None;
    for i := 0 to |tokens|
      invariant forall j :: 0 <= j < i ==> !IsMachineCode(tokens[j])
    {
      if IsMachineCode(tokens[i]) {
        device := Some(Upper(tokens[i]));
        assert FirstIndex(tokens, IsMachineCode) == i;
        return;
      }
    }
  }

  /** The serial-number scan of tcpclient.py:98-106. */
  method ScanSerial(tokens: seq<string>) returns (device: Option<string>)
    ensures device == FirstSerial(tokens)
  {
    device := None;
    for i := 0 to |tokens|
      invariant forall j :: 0 <= j < i ==> !IsSerial(tokens[j])
    {
      if IsSerial(tokens[i]) {
        device := Some(SerialDevice(tokens[i]));
        assert FirstIndex(tokens, IsSerial) == i;
        return;
      }
    }
  }

  /**
   * `parse_line(line)`, step by step as tcpclient.py:46-119 does it: the bracket
   * loop, the header heuristic, the token split, the status scan, then the
   * device matchers in priority order.
   */
  method ParseLine(line: string) returns (r: Result<Parsed, ParseError>)
    ensures r == Parse(line)
  {
    if line == [] {
      return Success(Parsed(None, None));
    }
    var s := StripBracketGroups(Strip(line));
    var payload := StripHeader(line, s);
    if payload.Failure? {
      return Failure(payload.error);
    }
    s := payload.value;
    var tokens := Tokens(s);
    if tokens == [] {
      return Success(Parsed(None, None));
    }
    var status := ScanStatus(tokens);
    var device := ScanMachineCode(tokens);
    if device == None {
      device := ScanSerial(tokens);
      if device == None && Upper(tokens[0]) == "SN" {
        device := Some("SN");
      }
    }
    if device == None && FallbackAllowed(tokens[0]) {
      device := Some(tokens[0]);
    }
    return Success(Parsed(device, status));
  }

  /** A line without decoration goes straight to the token stage. */
  lemma PlainLine(line: string)
    requires line != [] && !IsSpace(line[0]) && !IsSpace(line[|line| - 1])
    requires line[0] != '[' && ':' !in line
    ensures Parse(line) == Success(FromTokens(Tokens(line)))
  {
    StripTrimmed(line);
    assert IndexOf(line, ':') == |line|;
  }

}
