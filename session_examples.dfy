/**
 * Worked sessions for the routing rule of tcpclient.py:156-188 and the
 * reconnect loop of tcpclient.py:126-197. As in `ParserExamples`, a line is
 * given by its pieces, e.g. `code + [' '] + verdict` with `code == "M3"`.
 */
module SessionExamples {
  import opened Wrappers
  import opened Text
  import opened LineParser
  import opened ParserProperties
  import opened Framing
  import opened Session
  import opened SessionProperties

  lemma DeviceOnlyChoice()
    ensures FromTokens(["M2"]) == Parsed(Some("M2"), None)
  {
    var ts := ["M2"];
    assert Upper("M2") == "M2";
    MachineCodeWins(ts, 0);
    NoVerdictNoStatus(ts);
  }

  /** "M2" alone updates the device and carries no verdict. */
  lemma DeviceOnlyLine(w: string)
    requires w == "M2"
    ensures Parse(w) == Success(Parsed(Some("M2"), None))
  {
    PlainWord(w);
    DeviceOnlyChoice();
  }

  lemma VerdictOnlyChoice(w: string, v: Verdict)
    requires (w == "Fail" && v == Fail) || (w == "Pass" && v == Pass)
    ensures FromTokens([w]) == Parsed(None, Some(v))
  {
    var ts := [w];
    if v == Fail {
      assert Upper(w) == "FAIL";
    } else {
      assert Upper(w) == "PASS";
    }
    assert !IsMachineCode(w) && !IsSerial(w);
    FirstTokenLast(ts);
    StatusFromFirstVerdict(ts, 0);
  }

  /** "Fail" (or "Pass") alone carries a verdict and no device. */
  lemma VerdictOnlyLine(w: string, v: Verdict)
    requires (w == "Fail" && v == Fail) || (w == "Pass" && v == Pass)
    ensures IsWord(w) && Parse(w) == Success(Parsed(None, Some(v)))
  {
    PlainWord(w);
    VerdictOnlyChoice(w, v);
  }

  /** "M2" (or "M3", "M1") alone names the device and carries no verdict. */
  lemma DeviceOnlyWord(w: string)
    requires w == "M1" || w == "M2" || w == "M3"
    ensures IsWord(w) && Parse(w) == Success(Parsed(Some(w), None))
  {
    assert Upper(w) == w;
    MachineCodeWins([w], 0);
    NoVerdictNoStatus([w]);
    PlainWord(w);
  }

  /** A trimmed line is routed on its parse result. */
  lemma RouteTrimmed(current: Option<string>, w: string, p: Parsed)
    requires IsWord(w) && Parse(w) == Success(p)
    ensures RouteLine(current, w) == Success(Route(current, p))
  {
    WordEnds(w);
    RouteStripped(current, w, p);
  }

  lemma RouteStripped(current: Option<string>, l: string, p: Parsed)
    requires l != [] && !IsSpace(l[0]) && !IsSpace(l[|l| - 1])
    requires Parse(l) == Success(p)
    ensures RouteLine(current, l) == Success(Route(current, p))
  {
    StripTrimmed(l);
  }

  /** A verdict-only line is skipped without a device and inserted for the session device otherwise. */
  lemma VerdictRouted(w: string, v: Verdict, m: string)
    requires IsWord(w) && Parse(w) == Success(Parsed(None, Some(v)))
    ensures RouteLine(None, w) == Success((None, [Skip(NoActiveDevice)]))
    ensures RouteLine(Some(m), w) == Success((Some(m), [Insert(m, v), Ack]))
  {
    RouteTrimmed(None, w, Parsed(None, Some(v)));
    RouteTrimmed(Some(m), w, Parsed(None, Some(v)));
  }

  /**
   * "Fail" is skipped when no device is known, and inserted for "M1" with an
   * ACK when "M1" is the session device.
   */
  lemma VerdictNeedsDevice(w: string, m: string)
    requires w == "Fail" && m == "M1"
    ensures RouteLine(None, w) == Success((None, [Skip(NoActiveDevice)]))
    ensures RouteLine(Some(m), w) == Success((Some(m), [Insert(m, Fail), Ack]))
  {
    VerdictOnlyLine(w, Fail);
    VerdictRouted(w, Fail, m);
  }

  /** Two lines, routed in order from `current`. */
  lemma RouteTwoLines(current: Option<string>, l1: string, l2: string,
                      d1: Option<string>, a1: seq<Action>, d2: Option<string>, a2: seq<Action>)
    requires RouteLine(current, l1) == Success((d1, a1))
    requires RouteLine(d1, l2) == Success((d2, a2))
    ensures RouteLines(current, [l1, l2]) == Outcome(d2, a1 + a2, false)
  {
    assert [l1, l2][0] == l1 && [l1, l2][1..] == [l2];
    assert [l2][0] == l2 && [l2][1..] == [];
    assert RouteLines(d1, [l2]) == Outcome(d2, a2 + [], false);
    assert a2 + [] == a2;
  }

  /** A device line then a verdict line: an update, then an insert for that device. */
  lemma DeviceThenVerdictRouted(l1: string, l2: string, v: Verdict)
    requires IsWord(l1) && Parse(l1) == Success(Parsed(Some(l1), None))
    requires IsWord(l2) && Parse(l2) == Success(Parsed(None, Some(v)))
    ensures RouteLines(None, [l1, l2]) == Outcome(Some(l1), [Update(l1), Insert(l1, v), Ack], false)
  {
    RouteTrimmed(None, l1, Parsed(Some(l1), None));
    VerdictRouted(l2, v, l1);
    RouteTwoLines(None, l1, l2, Some(l1), [Update(l1)], Some(l1), [Insert(l1, v), Ack]);
  }

  /** "M3" then "Pass": the first line sets the device, the second is inserted for it. */
  lemma DeviceThenVerdict(l1: string, l2: string)
    requires l1 == "M3" && l2 == "Pass"
    ensures RouteLines(None, [l1, l2]) == Outcome(Some("M3"), [Update("M3"), Insert("M3", Pass), Ack], false)
  {
    DeviceOnlyWord(l1);
    VerdictOnlyLine(l2, Pass);
    DeviceThenVerdictRouted(l1, l2, Pass);
  }

  /** A line with both a device and a verdict, then a verdict-only line: both are inserted for that device. */
  lemma InlineThenVerdictRouted(l1: string, d: string, v1: Verdict, l2: string, v2: Verdict)
    requires l1 != [] && !IsSpace(l1[0]) && !IsSpace(l1[|l1| - 1])
    requires d != [] && Parse(l1) == Success(Parsed(Some(d), Some(v1)))
    requires IsWord(l2) && Parse(l2) == Success(Parsed(None, Some(v2)))
    ensures RouteLines(None, [l1, l2]) == Outcome(Some(d), [Insert(d, v1), Ack, Insert(d, v2), Ack], false)
  {
    InlineLineRouted(l1, d, v1);
    VerdictRouted(l2, v2, d);
    var a1, a2 := [Insert(d, v1), Ack], [Insert(d, v2), Ack];
    RouteTwoLines(None, l1, l2, Some(d), a1, Some(d), a2);
    assert a1 + a2 == [Insert(d, v1), Ack, Insert(d, v2), Ack];
  }

  /** A line naming a device and a verdict makes that device current and inserts for it. */
  lemma InlineLineRouted(l: string, d: string, v: Verdict)
    requires l != [] && !IsSpace(l[0]) && !IsSpace(l[|l| - 1])
    requires d != [] && Parse(l) == Success(Parsed(Some(d), Some(v)))
    ensures RouteLine(None, l) == Success((Some(d), [Insert(d, v), Ack]))
  {
    RouteStripped(None, l, Parsed(Some(d), Some(v)));
  }

  lemma MachineAndVerdict(code: string, verdict: string)
    requires code == "M3" && verdict == "Fail"
    ensures Parse(code + [' '] + verdict) == Success(Parsed(Some("M3"), Some(Fail)))
  {
    var ts := [code, verdict];
    assert Upper(code) == "M3";
    assert Upper(verdict) == "FAIL";
    MachineCodeWins(ts, 0);
    StatusFromFirstVerdict(ts, 1);
    PlainTwoWords(code, verdict);
  }

  /** "M3 Fail" then "Pass": the inline device is remembered for the next verdict. */
  lemma InlineDeviceSticks(code: string, verdict: string, l2: string)
    requires code == "M3" && verdict == "Fail" && l2 == "Pass"
    ensures RouteLines(None, [code + [' '] + verdict, l2])
            == Outcome(Some("M3"), [Insert("M3", Fail), Ack, Insert("M3", Pass), Ack], false)
  {
    MachineAndVerdict(code, verdict);
    VerdictOnlyLine(l2, Pass);
    var l1 := code + [' '] + verdict;
    assert l1[0] == 'M' && l1[|l1| - 1] == 'l';
    InlineThenVerdictRouted(l1, "M3", Fail, l2, Pass);
  }

  /** A chunk holding one complete line frames to that line alone. */
  lemma OneLineChunk(w: string)
    requires NoBreaks(w)
    ensures Frame([], w + ['\n']) == ([w], [])
  {
    SplitOneLine(w, '\n');
    var s := w + ['\n'];
    assert [] + s == s;
    assert EndsWithNewline(s);
  }

  /** A single line that parses is routed on its own. */
  lemma RouteSingle(current: Option<string>, w: string, d: Option<string>, acts: seq<Action>)
    requires RouteLine(current, w) == Success((d, acts))
    ensures RouteLines(current, [w]) == Outcome(d, acts, false)
  {
    assert [w][0] == w && [w][1..] == [];
    assert acts + [] == acts;
  }

  /** A connection that receives only `w + "\n"` and is then closed by the peer. */
  lemma OneLineConnection(w: string, d: Option<string>, acts: seq<Action>, retryDelay: nat)
    requires NoBreaks(w)
    requires RouteLine(None, w) == Success((d, acts))
    ensures Attempted(Connected([w + ['\n']], true), retryDelay) == Trace(acts, [])
  {
    var t := w + ['\n'];
    OneLineChunk(w);
    RouteSingle(None, w, d, acts);
    assert Receive(Fresh(), t) == (State([], d), Outcome(d, acts, false));
    RunOne(Fresh(), t);
  }

  /** Two attempts, one after the other. */
  lemma TwoAttempts(a1: Attempt, a2: Attempt, retryDelay: nat)
    ensures Client([a1, a2], retryDelay) == Then(Attempted(a1, retryDelay), Attempted(a2, retryDelay))
  {
    assert [a1, a2][0] == a1 && [a1, a2][1..] == [a2];
    assert [a2][0] == a2 && [a2][1..] == [];
    assert Client([a2], retryDelay) == Then(Attempted(a2, retryDelay), Client([], retryDelay));
    ThenEmpty(Attempted(a2, retryDelay));
  }

  /**
   * A device line on one connection and a verdict-only line on the next:
   * the device is not carried over, so the verdict is skipped.
   */
  lemma DeviceForgottenOnReconnect(m: string, v: string, verdict: Verdict, retryDelay: nat)
    requires IsWord(m) && Parse(m) == Success(Parsed(Some(m), None))
    requires IsWord(v) && Parse(v) == Success(Parsed(None, Some(verdict)))
    ensures Client([Connected([m + ['\n']], true), Connected([v + ['\n']], true)], retryDelay)
            == Trace([Update(m), Skip(NoActiveDevice)], [])
  {
    WordHasNoBreaks(m);
    WordHasNoBreaks(v);
    RouteTrimmed(None, m, Parsed(Some(m), None));
    OneLineConnection(m, Some(m), [Update(m)], retryDelay);
    VerdictRouted(v, verdict, m);
    OneLineConnection(v, None, [Skip(NoActiveDevice)], retryDelay);
    TwoAttempts(Connected([m + ['\n']], true), Connected([v + ['\n']], true), retryDelay);
    assert [Update(m)] + [Skip(NoActiveDevice)] == [Update(m), Skip(NoActiveDevice)];
    assert Then(Trace([Update(m)], []), Trace([Skip(NoActiveDevice)], [])) == Trace([Update(m), Skip(NoActiveDevice)], []);
  }

  /** Every line break is whitespace, so a token never holds one. */
  lemma WordHasNoBreaks(w: string)
    requires IsWord(w)
    ensures NoBreaks(w)
  {
    forall i | 0 <= i < |w| ensures !IsLineBreak(w[i]) {
      assert !IsSeparator(w[i]);
    }
  }

  /**
   * After the peer closes a connection whose device was M1, a "Pass" on the
   * next connection is skipped: the new connection starts with no device.
   */
  lemma ReconnectForgetsDevice(m: string, v: string, retryDelay: nat)
    requires m == "M1" && v == "Pass"
    ensures Client([Connected([m + ['\n']], true), Connected([v + ['\n']], true)], retryDelay)
            == Trace([Update("M1"), Skip(NoActiveDevice)], [])
  {
    DeviceOnlyWord(m);
    VerdictOnlyLine(v, Pass);
    DeviceForgottenOnReconnect(m, v, Pass, retryDelay);
  }
}
