/**
 * Worked lines for `parse_line` (tcpclient.py:33-119), each derived stage by
 * stage from the specification `LineParser.Parse`. A line is given by its
 * pieces, e.g. `code + [' '] + verdict` with `code == "M1"` for "M1 Pass".
 */
module ParserExamples {
  import opened Wrappers
  import opened Text
  import opened LineParser
  import opened ParserProperties

  lemma CodeAndVerdictChoice()
    ensures FromTokens(["M1", "Pass"]) == Parsed(Some("M1"), Some(Pass))
  {
    var ts := ["M1", "Pass"];
    assert Upper("M1") == "M1";
    assert Upper("Pass") == "PASS";
    MachineCodeWins(ts, 0);
    StatusFromFirstVerdict(ts, 1);
  }

  /** "M1 Pass" names machine M1 and a pass. */
  lemma CodeAndVerdict(code: string, verdict: string)
    requires code == "M1" && verdict == "Pass"
    ensures Parse(code + [' '] + verdict) == Success(Parsed(Some("M1"), Some(Pass)))
  {
    PlainTwoWords(code, verdict);
    CodeAndVerdictChoice();
  }

  lemma SerialWithDashesChoice()
    ensures FromTokens(["SN-AB-1"]) == Parsed(Some("SNAB1"), None)
  {
    var t := "SN-AB-1";
    SerialWithDashesToken(t);
    SerialWithDashesDevice(t);
    SerialWinsNext([t], 0);
    NoVerdictNoStatus([t]);
  }

  lemma SerialWithDashesToken(t: string)
    requires t == "SN-AB-1"
    ensures IsSerial(t) && !IsMachineCode(t) && !IsVerdictToken(t)
  {
    assert Upper(t) != "PASS" && Upper(t) != "FAIL";
  }

  lemma SerialWithDashesDevice(t: string)
    requires t == "SN-AB-1"
    ensures SerialDevice(t) == "SNAB1"
  {
    var sn, ab, one := "SN", "AB", "1";
    assert t == (sn + ['-'] + ab) + ['-'] + one;
    DropPunctuationAround(sn + ['-'] + ab, '-', one);
    DropPunctuationAround(sn, '-', ab);
    DropPunctuationKeeps(sn);
    DropPunctuationKeeps(ab);
    DropPunctuationKeeps(one);
    assert sn + ab + one == "SNAB1";
    assert Upper("SNAB1") == "SNAB1";
  }

  /** "SN-AB-1" is a serial token whose device drops the dashes. */
  lemma SerialWithDashes(t: string)
    requires t == "SN-AB-1"
    ensures Parse(t) == Success(Parsed(Some("SNAB1"), None))
  {
    PlainWord(t);
    SerialWithDashesChoice();
  }

  lemma CapitalsChoice()
    ensures FromTokens(["INFO", "Pass"]) == Parsed(None, Some(Pass))
  {
    var ts := ["INFO", "Pass"];
    assert Upper("INFO") == "INFO";
    assert Upper("Pass") == "PASS";
    assert !IsSerial("INFO") && !IsSerial("Pass");
    FirstTokenLast(ts);
    StatusFromFirstVerdict(ts, 1);
  }

  /** "INFO Pass": an all-capitals first word is not taken as a device. */
  lemma CapitalsAreNotDevices(word: string, verdict: string)
    requires word == "INFO" && verdict == "Pass"
    ensures Parse(word + [' '] + verdict) == Success(Parsed(None, Some(Pass)))
  {
    PlainTwoWords(word, verdict);
    CapitalsChoice();
  }

  lemma MixedCaseChoice()
    ensures FromTokens(["Info", "Pass"]) == Parsed(Some("Info"), Some(Pass))
  {
    var ts := ["Info", "Pass"];
    assert Upper("Info") == "INFO";
    assert Upper("Pass") == "PASS";
    assert !('A' <= "Info"[1] <= 'Z');
    assert !IsSerial("Info") && !IsSerial("Pass");
    FirstTokenLast(ts);
    StatusFromFirstVerdict(ts, 1);
  }

  /** "Info Pass": the same word not in capitals is taken as the device. */
  lemma MixedCaseIsDevice(word: string, verdict: string)
    requires word == "Info" && verdict == "Pass"
    ensures Parse(word + [' '] + verdict) == Success(Parsed(Some("Info"), Some(Pass)))
  {
    PlainTwoWords(word, verdict);
    MixedCaseChoice();
  }

  lemma SerialHeaderChoice()
    ensures FromTokens(["123", "Fail"]) == Parsed(Some("123"), Some(Fail))
  {
    var ts := ["123", "Fail"];
    assert Upper("123") == "123";
    assert Upper("Fail") == "FAIL";
    assert !IsMachineCode("123") && !IsSerial("123");
    assert !IsMachineCode("Fail") && !IsSerial("Fail");
    FirstTokenLast(ts);
    StatusFromFirstVerdict(ts, 1);
  }

  /** "SN:123 Fail": the "SN:" is read as a log header, so the device is "123", not "SN123". */
  lemma SerialHeaderLine(h: string, code: string, verdict: string)
    requires h == "SN" && code == "123" && verdict == "Fail"
    ensures Parse(h + [':'] + code + [' '] + verdict) == Success(Parsed(Some("123"), Some(Fail)))
  {
    assert IsAsciiLetter(verdict[0]);
    HeaderTwoWords(h, code, verdict);
    SerialHeaderChoice();
  }

  lemma SerialOnlyChoice()
    ensures FromTokens(["SN:123"]) == Parsed(Some("SN123"), None)
  {
    var t := "SN:123";
    SerialOnlyToken(t);
    SerialOnlyDevice(t);
    SerialWinsNext([t], 0);
    NoVerdictNoStatus([t]);
  }

  lemma SerialOnlyToken(t: string)
    requires t == "SN:123"
    ensures IsSerial(t) && !IsMachineCode(t) && !IsVerdictToken(t)
  {
    assert Upper(t) != "PASS" && Upper(t) != "FAIL";
  }

  lemma SerialOnlyDevice(t: string)
    requires t == "SN:123"
    ensures SerialDevice(t) == "SN123"
  {
    var sn, code := "SN", "123";
    assert t == sn + [':'] + code;
    DropPunctuationAround(sn, ':', code);
    DropPunctuationKeeps(sn);
    DropPunctuationKeeps(code);
    assert sn + code == "SN123";
    assert Upper("SN123") == "SN123";
  }

  /** "SN:123" alone: no letter follows the colon, so the header stays and the device is SN123. */
  lemma SerialOnlyLine(h: string, code: string)
    requires h == "SN" && code == "123"
    ensures Parse(h + [':'] + code) == Success(Parsed(Some("SN123"), None))
  {
    assert h + [':'] + code == "SN:123";
    assert !HasAsciiLetter(code);
    HeaderKeptWord(h, code);
    SerialOnlyChoice();
  }

  /** "[2025-09-10 10:00] Info: M1 Pass" reports machine M1 and a pass. */
  lemma TimestampLine(stamp: string, h: string, code: string, verdict: string)
    requires stamp == "2025-09-10 10:00" && h == "Info" && code == "M1" && verdict == "Pass"
    ensures Parse(['['] + stamp + [']', ' '] + h + [':', ' '] + code + [' '] + verdict)
            == Success(Parsed(Some("M1"), Some(Pass)))
  {
    assert IsAsciiLetter(code[0]);
    BracketHeaderTwoWords(stamp, h, code, verdict);
    CodeAndVerdictChoice();
  }

  /**
   * "[12:00): x] M1: Pass": the raw line holds "):" only inside the bracket
   * group, which is gone before the split, so `split('):', 1)[1]` raises.
   */
  lemma CloseColonInsideBrackets(inner: string, rest: string)
    requires inner == "12:00): x" && rest == "M1: Pass"
    ensures Parse(['['] + inner + [']', ' '] + rest) == Failure(SplitIndexError)
  {
    PairFound(inner, ')', ':', 5);
    assert rest == "M1" + [':'] + " Pass";
    IndexOfAfter("M1", ':', " Pass");
    PairAbsent(rest, ')', ':');
    CloseColonInBracketFails(inner, rest);
  }

  /**
   * "a): b): c": the split cuts at the first "):", so the second one stays
   * in the text that is tokenised.
   */
  lemma FirstCloseColonWins(h: string, body: string)
    requires h == "a" && body == " b): c"
    ensures var line := h + [')', ':'] + body;
            StripHeader(line, line) == Success("b): c")
  {
    CloseColonFirstCut(h, body);
    StripAfterCut(body);
  }

  lemma CloseColonFirstCut(h: string, body: string)
    requires h == "a"
    ensures var line := h + [')', ':'] + body;
            StripHeader(line, line) == Success(Strip(body))
  {
    var line := h + [')', ':'] + body;
    PairFound(line, ')', ':', |h|);
    CloseColonDropped(line, h, body);
  }

  lemma StripAfterCut(body: string)
    requires body == " b): c"
    ensures Strip(body) == "b): c"
  {
    var rest := "b): c";
    assert body == [' '] + rest;
    StripLeadingSpace(rest);
  }
}
