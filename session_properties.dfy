/**
 * What the routing rule of tcpclient.py:163-188 promises over whole
 * connections: the session device is sticky, every insert is answered by
 * exactly one ACK, inserts name a real device, at most one insert happens
 * per line, and where chunk boundaries fall does not change what is done.
 */
module SessionProperties {
  import opened Wrappers
  import opened Text
  import opened LineParser
  import opened Framing
  import opened Session

  /** Every insert is followed at once by an ACK, and every ACK follows an insert. */
  predicate AcksAfterInserts(acts: seq<Action>) {
    && (forall i :: 0 <= i < |acts| && acts[i].Insert? ==> i + 1 < |acts| && acts[i + 1].Ack?)
    && (forall i :: 0 <= i < |acts| && acts[i].Ack? ==> 0 < i && acts[i - 1].Insert?)
  }

  /** Every insert and every session update names a non-empty device. */
  predicate NamedDevices(acts: seq<Action>) {
    forall i :: 0 <= i < |acts| && (acts[i].Insert? || acts[i].Update?) ==> acts[i].device != []
  }

  /** A session device is either unset or non-empty. */
  predicate DeviceOk(d: Option<string>) {
    d.None? || d.value != []
  }

  /** The number of inserts among the actions. */
  function Inserts(acts: seq<Action>): (n: nat)
    ensures n <= |acts|
  {
    if acts == [] then 0 else (if acts[0].Insert? then 1 else 0) + Inserts(acts[1..])
  }

  lemma {:induction false} InsertsAppend(a: seq<Action>, b: seq<Action>)
    ensures Inserts(a + b) == Inserts(a) + Inserts(b)
    decreases |a|
  {
    if a == [] {
      assert a + b == b;
    } else {
      assert (a + b)[0] == a[0] && (a + b)[1..] == a[1..] + b;
      InsertsAppend(a[1..], b);
    }
  }

  /** Joining two well-paired action lists keeps them well paired. */
  lemma AcksAfterInsertsAppend(a: seq<Action>, b: seq<Action>)
    requires AcksAfterInserts(a) && AcksAfterInserts(b)
    ensures AcksAfterInserts(a + b)
  {
    var c := a + b;
    forall i | 0 <= i < |c| && c[i].Insert?
      ensures i + 1 < |c| && c[i + 1].Ack?
    {
      if i < |a| {
        assert a[i].Insert?;
      } else {
        assert b[i - |a|].Insert?;
      }
    }
    forall i | 0 <= i < |c| && c[i].Ack?
      ensures 0 < i && c[i - 1].Insert?
    {
      if i < |a| {
        assert a[i].Ack?;
      } else {
        assert b[i - |a|].Ack?;
      }
    }
  }

  /**
   * The session device after a line is the line's device when it has one,
   * and otherwise the old one (tcpclient.py:166-177).
   */
  lemma RouteDevice(current: Option<string>, p: Parsed)
    ensures Route(current, p).0 == (if Truthy(p.device) then p.device else current)
  {
  }

  /**
   * One parse result is inserted exactly when it carries a verdict and a
   * device can be resolved, inline or remembered (tcpclient.py:173-180); the
   * insert names the new session device and the line's verdict, and is
   * followed by an ACK.
   */
  lemma RouteInserts(current: Option<string>, p: Parsed)
    ensures var (d, acts) := Route(current, p);
            && (Inserts(acts) == 1 <==> p.status.Some? && (Truthy(p.device) || current.Some?))
            && Inserts(acts) <= 1
            && AcksAfterInserts(acts)
            && (forall i :: 0 <= i < |acts| && acts[i].Insert? ==>
                  d.Some? && acts[i] == Insert(d.value, p.status.value))
  {
    var (d, acts) := Route(current, p);
    if p.status.Some? && d.Some? && !(Truthy(p.device) && p.status.None?) {
      assert acts == [Insert(d.value, p.status.value), Ack];
      assert acts[1..] == [Ack];
      assert Inserts(acts) == 1 + Inserts([Ack]);
    } else {
      assert |acts| == 1 && !acts[0].Insert? && !acts[0].Ack?;
      assert Inserts(acts) == 0 + Inserts(acts[1..]);
    }
  }

  /** Without a remembered device a verdict-only line is skipped and changes nothing (tcpclient.py:177-179). */
  lemma VerdictWithoutDevice(p: Parsed)
    requires p.status.Some? && !Truthy(p.device)
    ensures Route(None, p) == (None, [Skip(NoActiveDevice)])
  {
  }

  /** A line with neither a device nor a verdict changes nothing (tcpclient.py:186-188). */
  lemma NothingToDo(current: Option<string>, p: Parsed)
    requires p.status.None? && !Truthy(p.device)
    ensures Route(current, p) == (current, [Skip(NoContent)])
  {
  }

  /** A line of whitespace only is skipped before parsing: no action, no change (tcpclient.py:157-159). */
  lemma BlankLineSkipped(current: Option<string>, line: string)
    requires forall i :: 0 <= i < |line| ==> IsSpace(line[i])
    ensures RouteLine(current, line) == Success((current, []))
  {
    assert LeadingSpaces(line) == |line|;
  }

  /** One line keeps the session invariants (tcpclient.py:156-188). */
  lemma RouteLineShape(current: Option<string>, line: string)
    requires DeviceOk(current)
    requires RouteLine(current, line).Success?
    ensures var (d, acts) := RouteLine(current, line).value;
            && DeviceOk(d)
            && (current.Some? ==> d.Some?)
            && AcksAfterInserts(acts)
            && NamedDevices(acts)
            && Inserts(acts) <= 1
  {
    var s := Strip(line);
    if s != [] {
      var p := Parse(s).value;
      RouteInserts(current, p);
      RouteDevice(current, p);
    }
  }

  /**
   * Over the lines of a chunk the session device, once set, is never reset
   * to None; every insert is followed by exactly one ACK; every insert and
   * update names a non-empty device; and there is at most one insert per
   * line.
   */
  lemma {:induction false} RouteLinesShape(current: Option<string>, lines: seq<string>)
    requires DeviceOk(current)
    ensures var o := RouteLines(current, lines);
            && DeviceOk(o.device)
            && (current.Some? ==> o.device.Some?)
            && AcksAfterInserts(o.actions)
            && NamedDevices(o.actions)
            && Inserts(o.actions) <= |lines|
    decreases |lines|
  {
    if lines != [] && RouteLine(current, lines[0]).Success? {
      var (d, acts) := RouteLine(current, lines[0]).value;
      RouteLineShape(current, lines[0]);
      var rest := RouteLines(d, lines[1..]);
      RouteLinesShape(d, lines[1..]);
      AcksAfterInsertsAppend(acts, rest.actions);
      InsertsAppend(acts, rest.actions);
    }
  }

  /** Routing the lines of two pieces is routing the first, then the second from where it left off. */
  lemma {:induction false} RouteLinesAppend(current: Option<string>, l1: seq<string>, l2: seq<string>)
    ensures var o1 := RouteLines(current, l1);
            RouteLines(current, l1 + l2) == if o1.failed then o1 else Prepend(o1.actions, RouteLines(o1.device, l2))
    decreases |l1|
  {
    if l1 == [] {
      assert l1 + l2 == l2;
    } else {
      assert (l1 + l2)[0] == l1[0] && (l1 + l2)[1..] == l1[1..] + l2;
      if RouteLine(current, l1[0]).Success? {
        var (d, acts) := RouteLine(current, l1[0]).value;
        RouteLinesAppend(d, l1[1..], l2);
        var o := RouteLines(d, l1[1..]);
        if !o.failed {
          PrependTwice(acts, o.actions, RouteLines(o.device, l2));
        }
      }
    }
  }

  /** One chunk on its own runs exactly as it is received. */
  lemma RunOne(st: State, text: string)
    ensures Run(st, [text]) == Receive(st, text).1
  {
    var (next, o) := Receive(st, text);
    assert [text][1..] == [];
    assert o.actions + [] == o.actions;
  }

  /**
   * For text whose only line break is '\n', splitting a chunk in two leaves
   * the carried buffer and session device exactly as receiving it whole.
   */
  lemma ReceiveSplit(st: State, t1: string, t2: string)
    requires OnlyNewlines(st.buffer + t1)
    requires !Receive(st, t1).1.failed
    ensures Receive(Receive(st, t1).0, t2).0 == Receive(st, t1 + t2).0
  {
    ChunkSplitInvariant(st.buffer, t1, t2);
    var (l1, b1) := Frame(st.buffer, t1);
    RouteLinesAppend(st.device, l1, Frame(b1, t2).0);
  }

  /** The chunks of a stream joined back together. */
  function Concat(cs: seq<string>): string {
    if cs == [] then [] else cs[0] + Concat(cs[1..])
  }

  /**
   * Receiving `t1 + t2` at once gives the outcome of receiving `t1` and then
   * `t2`, and the same carried state when `t1` raised nothing.
   */
  lemma ReceiveCompose(st: State, t1: string, t2: string)
    requires OnlyNewlines(st.buffer + t1)
    ensures var (n1, o1) := Receive(st, t1);
            var (n2, o2) := Receive(n1, t2);
            && Receive(st, t1 + t2).1 == (if o1.failed then o1 else Prepend(o1.actions, o2))
            && (!o1.failed ==> Receive(st, t1 + t2).0 == n2)
  {
    ChunkSplitInvariant(st.buffer, t1, t2);
    var (l1, b1) := Frame(st.buffer, t1);
    RouteLinesAppend(st.device, l1, Frame(b1, t2).0);
  }

  /** Merging the first two chunks of a connection changes nothing. */
  lemma MergeFirstChunks(st: State, c0: string, c1: string, rest: seq<string>)
    requires OnlyNewlines(st.buffer + c0)
    ensures Run(st, [c0, c1] + rest) == Run(st, [c0 + c1] + rest)
  {
    ReceiveCompose(st, c0, c1);
    var (n1, o1) := Receive(st, c0);
    var (n2, o2) := Receive(n1, c1);
    assert [c0, c1] + rest == [c0] + ([c1] + rest);
    RunCons(st, c0, [c1] + rest);
    RunCons(n1, c1, rest);
    RunCons(st, c0 + c1, rest);
    if !o1.failed && !o2.failed {
      PrependTwice(o1.actions, o2.actions, Run(n2, rest));
    }
  }

  /** `Run` on a first chunk and the rest, unfolded once. */
  lemma RunCons(st: State, c: string, rest: seq<string>)
    ensures Run(st, [c] + rest)
            == var (n, o) := Receive(st, c);
               if o.failed then o else Prepend(o.actions, Run(n, rest))
  {
    assert ([c] + rest)[0] == c && ([c] + rest)[1..] == rest;
  }

  /** A prefix of '\n'-only text is '\n'-only. */
  lemma OnlyNewlinesPrefix(a: string, b: string)
    requires OnlyNewlines(a + b)
    ensures OnlyNewlines(a)
  {
    assert forall i :: 0 <= i < |a| ==> a[i] == (a + b)[i];
  }

  /** Joining `[x, y] + l` is joining `[x + y] + l`. */
  lemma ConcatMergeFirst(x: string, y: string, l: seq<string>)
    ensures Concat([x, y] + l) == Concat([x + y] + l)
  {
    assert ([x, y] + l)[1..] == [y] + l;
    assert ([y] + l)[1..] == l;
    assert ([x + y] + l)[1..] == l;
  }

  /**
   * For a stream whose carried buffer and every chunk but the last are
   * '\n'-only, the outcome of a connection (actions, device, and whether a
   * parse error stopped it) does not depend on how the stream was cut into
   * chunks: it is the outcome of receiving all of it as one chunk.
   */
  lemma {:induction false} ChunkingIrrelevant(st: State, cs: seq<string>)
    requires cs != []
    requires OnlyNewlines(st.buffer + Concat(cs[..|cs| - 1]))
    ensures Run(st, cs) == Run(st, [Concat(cs)])
    decreases |cs|
  {
    if |cs| == 1 {
      ConcatOne(cs[0]);
      assert cs == [cs[0]];
    } else {
      var merged := [cs[0] + cs[1]] + cs[2..];
      MergedStream(st.buffer, cs);
      assert cs == [cs[0], cs[1]] + cs[2..];
      MergeFirstChunks(st, cs[0], cs[1], cs[2..]);
      ChunkingIrrelevant(st, merged);
    }
  }

  lemma ConcatOne(c: string)
    ensures Concat([c]) == c
  {
    assert [c][1..] == [];
    assert c + [] == c;
  }

  /** Merging the first two chunks keeps the joined stream and its '\n'-only front. */
  lemma MergedStream(buffer: string, cs: seq<string>)
    requires |cs| >= 2
    requires OnlyNewlines(buffer + Concat(cs[..|cs| - 1]))
    ensures OnlyNewlines(buffer + cs[0])
    ensures var merged := [cs[0] + cs[1]] + cs[2..];
            && Concat(merged) == Concat(cs)
            && OnlyNewlines(buffer + Concat(merged[..|merged| - 1]))
  {
    FrontStartsWithFirst(buffer, cs[..|cs| - 1]);
    MergedConcat(cs);
    MergedFront(cs);
    if |cs| == 2 {
      OnlyNewlinesPrefix(buffer, cs[0]);
      assert buffer + [] == buffer;
    }
  }

  /** The joined chunks start with the first chunk. */
  lemma FrontStartsWithFirst(buffer: string, front: seq<string>)
    requires front != []
    requires OnlyNewlines(buffer + Concat(front))
    ensures OnlyNewlines(buffer + front[0])
  {
    assert buffer + Concat(front) == (buffer + front[0]) + Concat(front[1..]);
    OnlyNewlinesPrefix(buffer + front[0], Concat(front[1..]));
  }

  lemma MergedConcat(cs: seq<string>)
    requires |cs| >= 2
    ensures Concat([cs[0] + cs[1]] + cs[2..]) == Concat(cs)
  {
    assert cs == [cs[0], cs[1]] + cs[2..];
    ConcatMergeFirst(cs[0], cs[1], cs[2..]);
  }

  /** All but the last chunk, joined, before and after merging the first two. */
  lemma MergedFront(cs: seq<string>)
    requires |cs| >= 2
    ensures var merged := [cs[0] + cs[1]] + cs[2..];
            Concat(merged[..|merged| - 1]) == if |cs| == 2 then [] else Concat(cs[..|cs| - 1])
  {
    var merged := [cs[0] + cs[1]] + cs[2..];
    if |cs| == 2 {
      assert merged[..|merged| - 1] == [];
    } else {
      var mid := cs[2..|cs| - 1];
      assert cs[..|cs| - 1] == [cs[0], cs[1]] + mid;
      assert merged[..|merged| - 1] == [cs[0] + cs[1]] + mid;
      ConcatMergeFirst(cs[0], cs[1], mid);
    }
  }

  /** The device a connection is left with is the device its outcome reports. */
  lemma {:induction false} RunStateDevice(st: State, cs: seq<string>)
    ensures RunState(st, cs).device == Run(st, cs).device
    decreases |cs|
  {
    if cs != [] {
      var (next, o) := Receive(st, cs[0]);
      if !o.failed {
        RunStateDevice(next, cs[1..]);
      }
    }
  }

  lemma NamedDevicesAppend(a: seq<Action>, b: seq<Action>)
    requires NamedDevices(a) && NamedDevices(b)
    ensures NamedDevices(a + b)
  {
    var c := a + b;
    forall i | 0 <= i < |c| && (c[i].Insert? || c[i].Update?)
      ensures c[i].device != []
    {
      if i < |a| {
        assert c[i] == a[i];
      } else {
        assert c[i] == b[i - |a|];
      }
    }
  }

  /** The session invariants hold across all the chunks of one connection. */
  lemma {:induction false} RunShape(st: State, chunks: seq<string>)
    requires DeviceOk(st.device)
    ensures var o := Run(st, chunks);
            && DeviceOk(o.device)
            && (st.device.Some? ==> o.device.Some?)
            && AcksAfterInserts(o.actions)
            && NamedDevices(o.actions)
    decreases |chunks|
  {
    if chunks != [] {
      var (next, o) := Receive(st, chunks[0]);
      var (lines, rest) := Frame(st.buffer, chunks[0]);
      RouteLinesShape(st.device, lines);
      if !o.failed {
        RunShape(next, chunks[1..]);
        var r := Run(next, chunks[1..]);
        AcksAfterInsertsAppend(o.actions, r.actions);
        NamedDevicesAppend(o.actions, r.actions);
      }
    }
  }

  /**
   * Over any run of the reconnect loop every insert is answered by one ACK,
   * every insert names a device, and each attempt sleeps at most once, for
   * exactly `retry_delay`.
   */
  lemma {:induction false} ClientShape(attempts: seq<Attempt>, retryDelay: nat)
    ensures var t := Client(attempts, retryDelay);
            && AcksAfterInserts(t.actions)
            && NamedDevices(t.actions)
            && |t.delays| <= |attempts|
            && (forall i :: 0 <= i < |t.delays| ==> t.delays[i] == retryDelay)
    decreases |attempts|
  {
    if attempts != [] {
      var a := attempts[0];
      var t := Attempted(a, retryDelay);
      if a.Connected? {
        RunShape(Fresh(), a.chunks);
      }
      var rest := Client(attempts[1..], retryDelay);
      ClientShape(attempts[1..], retryDelay);
      AcksAfterInsertsAppend(t.actions, rest.actions);
      NamedDevicesAppend(t.actions, rest.actions);
      var d := t.delays + rest.delays;
      forall i | 0 <= i < |d| ensures d[i] == retryDelay {
        if i < |t.delays| {
          assert d[i] == t.delays[i];
        } else {
          assert d[i] == rest.delays[i - |t.delays|];
        }
      }
    }
  }

  /**
   * Nothing carries over between connections: running two lists of attempts
   * one after the other does what each does on its own.
   */
  lemma {:induction false} ClientAppend(a1: seq<Attempt>, a2: seq<Attempt>, retryDelay: nat)
    ensures Client(a1 + a2, retryDelay) == Then(Client(a1, retryDelay), Client(a2, retryDelay))
    decreases |a1|
  {
    if a1 == [] {
      assert a1 + a2 == a2;
      ThenEmpty(Client(a2, retryDelay));
    } else {
      assert (a1 + a2)[0] == a1[0] && (a1 + a2)[1..] == a1[1..] + a2;
      ClientAppend(a1[1..], a2, retryDelay);
      ThenTwice(Attempted(a1[0], retryDelay), Client(a1[1..], retryDelay), Client(a2, retryDelay));
    }
  }
}
