/**
 * The per-connection state of the ingestion client (tcpclient.py:135-188):
 * the carry-over `buffer` and the sticky `current_device`, updated chunk by
 * chunk. The database insert and the ACK write are recorded as actions.
 *
 * `RouteLines` and `Run` are the specification; the class `Connection`
 * follows the source's loops and is proved against them.
 */
module Session {
  import opened Wrappers
  import opened Text
  import opened LineParser
  import opened Framing

  datatype SkipReason =
    | NoActiveDevice  // a verdict, but no device in the line and none remembered
    | NoContent       // neither a verdict nor a device update

  /** What handling one line does, in order. */
  datatype Action =
    | Update(device: string)                   // `current_device = device_token`
    | Insert(device: string, verdict: Verdict) // `insert_data(current_device, status_token)`
    | Ack                                      // `client.sendall(b"ACK\n")`
    | Skip(reason: SkipReason)

  /** Python truthiness of the device result: present and non-empty. */
  predicate Truthy(d: Option<string>) {
    d.Some? && d.value != []
  }

  /**
   * The routing rule of tcpclient.py:163-188 for one parse result: the new
   * session device and the actions taken.
   */
  function Route(current: Option<string>, p: Parsed): (Option<string>, seq<Action>) {
    if Truthy(p.device) && p.status.None? then
      (p.device, [Update(p.device.value)])
    else if p.status.Some? then
      var device := if Truthy(p.device) then p.device else current;
      if device.None? then (device, [Skip(NoActiveDevice)])
      else (device, [Insert(device.value, p.status.value), Ack])
    else
      (current, [Skip(NoContent)])
  }

  /** One framed line: stripped, skipped when blank, parsed, routed; a parse error is passed up. */
  function RouteLine(current: Option<string>, line: string): Result<(Option<string>, seq<Action>), ParseError> {
    var s := Strip(line);
    if s == [] then Success((current, []))
    else
      match Parse(s)
      case Failure(e) => Failure(e)
      case Success(p) => Success(Route(current, p))
  }

  /** The session device after some lines, the actions taken, and whether a parse error ended the connection. */
  datatype Outcome = Outcome(device: Option<string>, actions: seq<Action>, failed: bool)

  /** The lines of one chunk, in order; a parse error stops the rest. */
  function RouteLines(current: Option<string>, lines: seq<string>): Outcome
    decreases |lines|
  {
    if lines == [] then Outcome(current, [], false)
    else
      match RouteLine(current, lines[0])
      case Failure(_) => Outcome(current, [], true)
      case Success((device, actions)) =>
        Prepend(actions, RouteLines(device, lines[1..]))
  }

  /** `o` preceded by the actions `a`. */
  function Prepend(a: seq<Action>, o: Outcome): Outcome {
    Outcome(o.device, a + o.actions, o.failed)
  }

  /** The state a connection carries between chunks. */
  datatype State = State(buffer: string, device: Option<string>)

  /** The state of a fresh connection (tcpclient.py:135-136). */
  function Fresh(): State {
    State([], None)
  }

  /** One chunk: frame it, then route its lines. */
  function Receive(st: State, text: string): (State, Outcome) {
    var (lines, rest) := Frame(st.buffer, text);
    var o := RouteLines(st.device, lines);
    (State(rest, o.device), o)
  }

  /** A sequence of chunks on one connection, stopping at the first parse error. */
  function Run(st: State, chunks: seq<string>): Outcome
    decreases |chunks|
  {
    if chunks == [] then Outcome(st.device, [], false)
    else
      var (next, o) := Receive(st, chunks[0]);
      if o.failed then o
      else
        Prepend(o.actions, Run(next, chunks[1..]))
  }

  /**
   * The buffer and device a connection is left with after the chunks: after
   * the last one, or after the one whose line raised.
   */
  function RunState(st: State, chunks: seq<string>): State
    decreases |chunks|
  {
    if chunks == [] then st
    else
      var (next, o) := Receive(st, chunks[0]);
      if o.failed then next else RunState(next, chunks[1..])
  }

  /**
   * One pass of the reconnect loop of tcpclient.py:126-197: the connection
   * is refused, or it delivers some decoded chunks and then either the peer
   * closes it (an empty `recv`) or reading raises.
   */
  datatype Attempt =
    | Refused
    | Connected(chunks: seq<string>, closedByPeer: bool)

  /** What the client did: the actions taken and the delays slept, in order. */
  datatype Trace = Trace(actions: seq<Action>, delays: seq<nat>)

  /** `t` followed by `u`. */
  function Then(t: Trace, u: Trace): Trace {
    Trace(t.actions + u.actions, t.delays + u.delays)
  }

  /**
   * The actions of one attempt, on a fresh session, and the delays slept
   * after it: `retry_delay` after any exception (a refused connection, a
   * failing read, or a `parse_line` error), none after the peer closed.
   */
  function Attempted(a: Attempt, retryDelay: nat): Trace {
    match a
    case Refused => Trace([], [retryDelay])
    case Connected(chunks, closedByPeer) =>
      var o := Run(Fresh(), chunks);
      Trace(o.actions, if o.failed || !closedByPeer then [retryDelay] else [])
  }

  /** A finite prefix of the reconnect loop: the attempts' actions and delays, in order. */
  function Client(attempts: seq<Attempt>, retryDelay: nat): Trace
    decreases |attempts|
  {
    if attempts == [] then Trace([], [])
    else Then(Attempted(attempts[0], retryDelay), Client(attempts[1..], retryDelay))
  }

  /**
   * The reconnect loop of tcpclient.py:126-197 over a finite list of
   * attempts: each connection gets a new `Connection`, so no buffer and no
   * device carries over from one connection to the next.
   */
  method RunClient(attempts: seq<Attempt>, retryDelay: nat) returns (log: seq<Action>, delays: seq<nat>)
    ensures Trace(log, delays) == Client(attempts, retryDelay)
  {
    var done := Trace([], []);
    var k := 0;
    assert attempts[k..] == attempts;
    ThenEmpty(Client(attempts, retryDelay));
    while k < |attempts|
      invariant 0 <= k <= |attempts|
      invariant Client(attempts, retryDelay) == Then(done, Client(attempts[k..], retryDelay))
    {
      ClientAt(attempts, retryDelay, k);
      var step := Connect(attempts[k], retryDelay);
      ThenTwice(done, step, Client(attempts[k + 1..], retryDelay));
      done := Then(done, step);
      k := k + 1;
    }
    assert attempts[k..] == [];
    ThenEmpty(done);
    log, delays := done.actions, done.delays;
  }

  /** One attempt of tcpclient.py:128-197, on a new connection object. */
  method Connect(a: Attempt, retryDelay: nat) returns (step: Trace)
    ensures step == Attempted(a, retryDelay)
  {
    if a.Refused? {
      return Trace([], [retryDelay]);
    }
    var conn := new Connection();
    var acts, failed := conn.OnChunks(a.chunks);
    step := Trace(acts, if failed || !a.closedByPeer then [retryDelay] else []);
  }

  /** The connection state of tcpclient.py:135-188. */
  class Connection {
    var buffer: string
    var currentDevice: Option<string>

    /** A new connection starts with an empty buffer and no device (tcpclient.py:135-136). */
    constructor()
      ensures buffer == [] && currentDevice == None
    {
      buffer := [];
      currentDevice := None;
    }

    /**
     * One received chunk (tcpclient.py:146-188): frame it into lines, then
     * parse and route each line. `failed` reports the exception that
     * `parse_line` raised, which ends the connection.
     */
    method OnChunk(text: string) returns (actions: seq<Action>, failed: bool)
      modifies this
      ensures (State(buffer, currentDevice), Outcome(currentDevice, actions, failed))
              == Receive(old(State(buffer, currentDevice)), text)
    {
      var lines := TakeLines(text);
      actions, failed := RouteAll(lines);
    }

    /** The read loop of tcpclient.py:138-188 over the chunks received; a `parse_line` error ends it. */
    method OnChunks(chunks: seq<string>) returns (actions: seq<Action>, failed: bool)
      modifies this
      ensures Outcome(currentDevice, actions, failed) == Run(old(State(buffer, currentDevice)), chunks)
      ensures State(buffer, currentDevice) == RunState(old(State(buffer, currentDevice)), chunks)
    {
      actions := [];
      failed := false;
      var j := 0;
      while j < |chunks|
        invariant 0 <= j <= |chunks|
        invariant Run(old(State(buffer, currentDevice)), chunks)
                  == Prepend(actions, Run(State(buffer, currentDevice), chunks[j..]))
        invariant RunState(old(State(buffer, currentDevice)), chunks)
                  == RunState(State(buffer, currentDevice), chunks[j..])
      {
        RunAt(State(buffer, currentDevice), chunks, j);
        var step;
        step, failed := OnChunk(chunks[j]);
        if failed {
          actions := actions + step;
          return;
        }
        PrependTwice(actions, step, Run(State(buffer, currentDevice), chunks[j + 1..]));
        actions := actions + step;
        j := j + 1;
      }
      assert chunks[j..] == [];
      assert actions + [] == actions;
    }

    /** The framing of tcpclient.py:148-154: append, split, keep an unterminated tail. */
    method TakeLines(text: string) returns (lines: seq<string>)
      modifies this
      ensures (lines, buffer) == Frame(old(buffer), text)
      ensures currentDevice == old(currentDevice)
    {
      buffer := buffer + text;
      lines := SplitLines(buffer);
      if !EndsWithNewline(buffer) {
        if lines != [] {
          buffer := lines[|lines| - 1];
          lines := lines[..|lines| - 1];
        } else {
          buffer := [];
        }
      } else {
        buffer := [];
      }
    }

    /** The line loop of tcpclient.py:156-188; it stops where `parse_line` raises. */
    method RouteAll(lines: seq<string>) returns (actions: seq<Action>, failed: bool)
      modifies this
      ensures Outcome(currentDevice, actions, failed) == RouteLines(old(currentDevice), lines)
      ensures buffer == old(buffer)
    {
      actions := [];
      failed := false;
      var i := 0;
      while i < |lines|
        invariant 0 <= i <= |lines|
        invariant buffer == old(buffer)
        invariant RouteLines(old(currentDevice), lines) == Prepend(actions, RouteLines(currentDevice, lines[i..]))
      {
        RouteLinesAt(currentDevice, lines, i);
        var step, stop := HandleLine(lines[i]);
        if stop {
          failed := true;
          return;
        }
        PrependTwice(actions, step, RouteLines(currentDevice, lines[i + 1..]));
        actions := actions + step;
        i := i + 1;
      }
      assert lines[i..] == [];
    }

    /** One line of the loop at tcpclient.py:156-188: strip, skip if blank, parse, route. */
    method HandleLine(line: string) returns (step: seq<Action>, failed: bool)
      modifies this
      ensures failed <==> RouteLine(old(currentDevice), line).Failure?
      ensures failed ==> currentDevice == old(currentDevice) && step == []
      ensures !failed ==> (currentDevice, step) == RouteLine(old(currentDevice), line).value
      ensures buffer == old(buffer)
    {
      var s := Strip(line);
      if s == [] {
        return [], false;
      }
      var r := ParseLine(s);
      if r.Failure? {
        return [], true;
      }
      step := RouteParsed(r.value);
      failed := false;
    }

    /** The routing rule of tcpclient.py:163-188, updating `currentDevice` in place. */
    method RouteParsed(p: Parsed) returns (step: seq<Action>)
      modifies this
      ensures (currentDevice, step) == Route(old(currentDevice), p)
      ensures buffer == old(buffer)
    {
      if p.device.Some? && p.device.value != [] && p.status.None? {
        currentDevice := p.device;
        return [Update(p.device.value)];
      }
      if p.status.Some? {
        if p.device.Some? && p.device.value != [] {
          currentDevice := p.device;
        }
        if currentDevice.None? {
          return [Skip(NoActiveDevice)];
        }
        return [Insert(currentDevice.value, p.status.value), Ack];
      }
      return [Skip(NoContent)];
    }
  }

  /** `RouteLines` on the lines from index `i` on, unfolded once. */
  lemma RouteLinesAt(current: Option<string>, lines: seq<string>, i: nat)
    requires i < |lines|
    ensures RouteLine(current, lines[i]).Failure? ==>
              RouteLines(current, lines[i..]) == Outcome(current, [], true)
    ensures RouteLine(current, lines[i]).Success? ==>
              var (d, a) := RouteLine(current, lines[i]).value;
              RouteLines(current, lines[i..]) == Prepend(a, RouteLines(d, lines[i + 1..]))
  {
    assert lines[i..][0] == lines[i] && lines[i..][1..] == lines[i + 1..];
  }

  /** `Run` on the chunks from index `j` on, unfolded once. */
  lemma RunAt(st: State, chunks: seq<string>, j: nat)
    requires j < |chunks|
    ensures var (next, o) := Receive(st, chunks[j]);
            Run(st, chunks[j..]) == if o.failed then o else Prepend(o.actions, Run(next, chunks[j + 1..]))
    ensures var (next, o) := Receive(st, chunks[j]);
            RunState(st, chunks[j..]) == if o.failed then next else RunState(next, chunks[j + 1..])
  {
    assert chunks[j..][0] == chunks[j] && chunks[j..][1..] == chunks[j + 1..];
  }

  /** `Client` on the attempts from index `k` on, unfolded once. */
  lemma ClientAt(attempts: seq<Attempt>, retryDelay: nat, k: nat)
    requires k < |attempts|
    ensures Client(attempts[k..], retryDelay)
            == Then(Attempted(attempts[k], retryDelay), Client(attempts[k + 1..], retryDelay))
  {
    assert attempts[k..][0] == attempts[k] && attempts[k..][1..] == attempts[k + 1..];
  }

  // Proof steps: associativity and unit laws of `Prepend` and `Then`, used by
  // the loop invariants above. They state nothing about the client itself.

  lemma PrependTwice(a: seq<Action>, b: seq<Action>, o: Outcome)
    ensures Prepend(a, Prepend(b, o)) == Prepend(a + b, o)
  {
    assert a + (b + o.actions) == (a + b) + o.actions;
  }

  lemma ThenEmpty(t: Trace)
    ensures Then(Trace([], []), t) == t && Then(t, Trace([], [])) == t
  {
    assert [] + t.actions == t.actions + [] == t.actions;
    assert [] + t.delays == t.delays + [] == t.delays;
  }

  lemma ThenTwice(t: Trace, u: Trace, v: Trace)
    ensures Then(t, Then(u, v)) == Then(Then(t, u), v)
  {
    assert t.actions + (u.actions + v.actions) == (t.actions + u.actions) + v.actions;
    assert t.delays + (u.delays + v.delays) == (t.delays + u.delays) + v.delays;
  }
}
