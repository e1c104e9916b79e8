// The server end of the protocol: the lines it writes, the test handler
// table it dispatches against, the bounded retry of a failing handler, and
// the process loop that serves request lines until "exit".
//
// Request lines arrive as a sequence; the loop also ends when the sequence
// runs out. Sleeping between retries is recorded, not performed. The stack
// trace an error response carries is supplied by the caller as traceOf.

module ProtocolServer {
  import opened Errors
  import opened Json
  import opened Text
  import opened ProtocolCommand

  // ---------------------------------------------------------------------
  // Lines the server writes
  // ---------------------------------------------------------------------

  function GreetingMembers(service: string, version: string): seq<(string, Value)>
  {
    [(GreetingKeyName, Str(ProjectName)), (GreetingKeyService, Str(service)), (GreetingKeyVersion, Str(version))]
  }

  /** The first line a server writes. */
  function GreetingLine(service: string, version: string): (line: string)
    ensures DecodeLine(line) == Ok(GreetingMembers(service, version))
  {
    DecodeEncodeLine(GreetingMembers(service, version));
    EncodeLine(GreetingMembers(service, version))
  }

  function ResponseMembers(out: Option<Value>): seq<(string, Value)>
  {
    if out.Some? then [(KeyOutput, out.value)] else []
  }

  /** The terminating response of a command: {} or {"out":value}. */
  function ResponseLine(out: Option<Value>): (line: string)
    ensures DecodeLine(line) == Ok(ResponseMembers(out))
  {
    DecodeEncodeLine(ResponseMembers(out));
    EncodeLine(ResponseMembers(out))
  }

  /** Keys in sorted order, as the key/value store renders them. */
  function ErrorMembers(e: Error, stack: string): seq<(string, Value)>
  {
    [(KeyError, Int(Code(e.errType))), (KeyErrorStack, Str(stack)), (KeyOutput, Str(e.message))]
  }

  /** The response that reports an error: its code, its message and the stack. */
  function ErrorLine(e: Error, stack: string): (line: string)
    ensures DecodeLine(line) == Ok(ErrorMembers(e, stack))
  {
    DecodeEncodeLine(ErrorMembers(e, stack));
    EncodeLine(ErrorMembers(e, stack))
  }

  /** An out-of-band line; no text writes the lone "." that ends a block. */
  function OutOfBandLine(text: Option<string>): (line: string)
    ensures |line| > 0 && line[0] == '.'
    ensures line[1..] == if text.Some? then text.value else ""
  {
    "." + (if text.Some? then text.value else "")
  }

  /** A message the server writes; Line gives the text of its line. */
  datatype Message =
    | Greeting(service: string, version: string)
    | Response(out: Option<Value>)
    | ErrorReply(error: Error, stack: string)
    | OutOfBand(text: Option<string>)

  function Line(m: Message): string
  {
    match m
    case Greeting(service, version) => GreetingLine(service, version)
    case Response(out) => ResponseLine(out)
    case ErrorReply(e, stack) => ErrorLine(e, stack)
    case OutOfBand(text) => OutOfBandLine(text)
  }

  /** The lines of a sequence of messages, in order. */
  function Lines(ms: seq<Message>): (r: seq<string>)
    ensures |r| == |ms|
    ensures forall k :: 0 <= k < |ms| ==> r[k] == Line(ms[k])
  {
    if |ms| == 0 then [] else [Line(ms[0])] + Lines(ms[1..])
  }

  // ---------------------------------------------------------------------
  // The test handler table
  // ---------------------------------------------------------------------

  datatype Handler = AssertHandler | RequestSimple | RequestComplex | ErrorUntil0

  /** The handler table the server is run with, in registration order. */
  const TestHandlerTable: seq<(string, Handler)> :=
    [("assert", AssertHandler), ("request-simple", RequestSimple),
     ("request-complex", RequestComplex), ("error-until-0", ErrorUntil0)]

  const ParamAssert := Error(AssertError, "assertion 'paramList == NULL' failed")

  /** What one handler invocation writes, whether it faults, and the fault counter after it. */
  datatype HandlerRun = HandlerRun(lines: seq<Message>, fault: Option<Error>, errorTotal: nat)

  /**
   * The test handlers. Each refuses a parameter list; "assert" always
   * faults; the two requests respond; "error-until-0" faults while the
   * counter is positive, counting it down.
   */
  function HandleSpec(h: Handler, params: Option<seq<Value>>, errorTotal: nat): (r: HandlerRun)
    ensures r.fault.Some? ==> r.lines == []
    ensures r.errorTotal <= errorTotal
  {
    if params.Some? then HandlerRun([], Some(ParamAssert), errorTotal)
    else
      match h
      case AssertHandler => HandlerRun([], Some(Error(AssertError, "test assert")), errorTotal)
      case RequestSimple => HandlerRun([Response(Some(Bool(true)))], None, errorTotal)
      case RequestComplex =>
        HandlerRun([Response(Some(Bool(false))), OutOfBand(Some("LINEOFTEXT")), OutOfBand(None)], None, errorTotal)
      case ErrorUntil0 =>
        if errorTotal > 0 then HandlerRun([], Some(Error(FormatError, "error-until-0")), errorTotal - 1)
        else HandlerRun([Response(Some(Bool(true)))], None, errorTotal)
  }

  /** The handlers' shared state: how many more times "error-until-0" faults. */
  class TestHandlers {
    var errorTotal: nat

    constructor(errorTotal: nat)
      ensures this.errorTotal == errorTotal
    {
      this.errorTotal := errorTotal;
    }

    method Handle(h: Handler, params: Option<seq<Value>>) returns (lines: seq<Message>, fault: Option<Error>)
      modifies this
      ensures HandlerRun(lines, fault, errorTotal) == HandleSpec(h, params, old(errorTotal))
    {
      lines := [];
      fault := None;
      if params.Some? {
        fault := Some(ParamAssert);
        return;
      }
      match h {
        case AssertHandler =>
          fault := Some(Error(AssertError, "test assert"));
        case RequestSimple =>
          lines := [Response(Some(Bool(true)))];
        case RequestComplex =>
          lines := [Response(Some(Bool(false)))];
          lines := lines + [OutOfBand(Some("LINEOFTEXT"))];
          lines := lines + [OutOfBand(None)];
        case ErrorUntil0 =>
          if errorTotal > 0 {
            errorTotal := errorTotal - 1;
            fault := Some(Error(FormatError, "error-until-0"));
          } else {
            lines := [Response(Some(Bool(true)))];
          }
      }
    }
  }

  // ---------------------------------------------------------------------
  // Retries
  // ---------------------------------------------------------------------

  /** What running a handler with retries writes, its final fault, the sleeps taken and the counter. */
  datatype AttemptRun = AttemptRun(lines: seq<Message>, fault: Option<Error>, sleeps: seq<nat>, errorTotal: nat)

  /**
   * Running a handler with `remaining` retries left out of the interval
   * list: a fault with retries left sleeps for the next interval (a zero
   * interval is no sleep) and runs the handler again; the fault that
   * exhausts the retries is the one reported.
   */
  function Attempts(h: Handler, params: Option<seq<Value>>, errorTotal: nat, intervals: seq<nat>, remaining: nat): (r: AttemptRun)
    requires remaining <= |intervals|
    ensures |r.sleeps| <= remaining
    decreases remaining
  {
    var run := HandleSpec(h, params, errorTotal);
    if run.fault.None? || remaining == 0 then AttemptRun(run.lines, run.fault, [], run.errorTotal)
    else
      var sleep := intervals[|intervals| - remaining];
      var next := Attempts(h, params, run.errorTotal, intervals, remaining - 1);
      AttemptRun(run.lines + next.lines, next.fault, (if sleep > 0 then [sleep] else []) + next.sleeps, next.errorTotal)
  }

  /** A run preceded by lines already written and sleeps already taken. */
  function Then(lines: seq<Message>, sleeps: seq<nat>, a: AttemptRun): AttemptRun
  {
    AttemptRun(lines + a.lines, a.fault, sleeps + a.sleeps, a.errorTotal)
  }

  lemma ThenThen(l1: seq<Message>, s1: seq<nat>, l2: seq<Message>, s2: seq<nat>, a: AttemptRun)
    ensures Then(l1, s1, Then(l2, s2, a)) == Then(l1 + l2, s1 + s2, a)
  {
    assert l1 + (l2 + a.lines) == (l1 + l2) + a.lines;
    assert s1 + (s2 + a.sleeps) == (s1 + s2) + a.sleeps;
  }

  /** One attempt, then either the end of the run or the retries that follow it. */
  lemma AttemptsStep(h: Handler, params: Option<seq<Value>>, errorTotal: nat, intervals: seq<nat>, remaining: nat)
    requires remaining <= |intervals|
    ensures var run := HandleSpec(h, params, errorTotal);
            if run.fault.None? || remaining == 0
            then Attempts(h, params, errorTotal, intervals, remaining) == AttemptRun(run.lines, run.fault, [], run.errorTotal)
            else Attempts(h, params, errorTotal, intervals, remaining)
                 == Then(run.lines, if intervals[|intervals| - remaining] > 0 then [intervals[|intervals| - remaining]] else [],
                         Attempts(h, params, run.errorTotal, intervals, remaining - 1))
  {
  }

  /** The intervals from index k on that are positive: the sleeps retries starting at k take. */
  function PositiveFrom(intervals: seq<nat>, k: nat, count: nat): seq<nat>
    requires k + count <= |intervals|
    decreases count
  {
    if count == 0 then []
    else (if intervals[k] > 0 then [intervals[k]] else []) + PositiveFrom(intervals, k + 1, count - 1)
  }

  /**
   * "error-until-0" with n faults to go and at least n retries left
   * succeeds: one {"out":true}, no fault, one sleep per positive interval
   * used, and the counter at zero.
   */
  lemma {:induction false} ErrorUntil0Recovers(n: nat, intervals: seq<nat>, remaining: nat)
    requires n <= remaining <= |intervals|
    ensures Attempts(ErrorUntil0, None, n, intervals, remaining)
            == AttemptRun([Response(Some(Bool(true)))], None, PositiveFrom(intervals, |intervals| - remaining, n), 0)
    decreases n
  {
    if n > 0 {
      ErrorUntil0Recovers(n - 1, intervals, remaining - 1);
    }
  }

  /** With fewer retries than faults to go, the handler's own fault is reported and nothing is written. */
  lemma {:induction false} ErrorUntil0Exhausts(n: nat, intervals: seq<nat>, remaining: nat)
    requires remaining < n && remaining <= |intervals|
    ensures Attempts(ErrorUntil0, None, n, intervals, remaining)
            == AttemptRun([], Some(Error(FormatError, "error-until-0")), PositiveFrom(intervals, |intervals| - remaining, remaining), n - remaining - 1)
    decreases remaining
  {
    if remaining > 0 {
      ErrorUntil0Exhausts(n - 1, intervals, remaining - 1);
    }
  }

  /** A handler whose fault does not depend on its state faults on every retry, and the last fault is reported. */
  lemma {:induction false} AssertNeverRecovers(intervals: seq<nat>, remaining: nat, errorTotal: nat)
    requires remaining <= |intervals|
    ensures Attempts(AssertHandler, None, errorTotal, intervals, remaining)
            == AttemptRun([], Some(Error(AssertError, "test assert")), PositiveFrom(intervals, |intervals| - remaining, remaining), errorTotal)
    decreases remaining
  {
    if remaining > 0 {
      AssertNeverRecovers(intervals, remaining - 1, errorTotal);
    }
  }

  // ---------------------------------------------------------------------
  // Dispatch
  // ---------------------------------------------------------------------

  /** The index of the first handler registered under name, or |handlers| when there is none. */
  function Lookup(handlers: seq<(string, Handler)>, name: string): (i: nat)
    ensures i <= |handlers|
    ensures i < |handlers| ==> handlers[i].0 == name
    ensures forall k :: 0 <= k < i ==> handlers[k].0 != name
  {
    if |handlers| == 0 then 0
    else if handlers[0].0 == name then 0
    else 1 + Lookup(handlers[1..], name)
  }

  /** Where each name falls in the test handler table; every other name is missing from it. */
  lemma {:induction false} TestHandlerLookup(name: string)
    ensures Lookup(TestHandlerTable, name)
            == if name == "assert" then 0 else if name == "request-simple" then 1
               else if name == "request-complex" then 2 else if name == "error-until-0" then 3 else 4
  {
    var t := TestHandlerTable;
    assert t[1..][1..][1..][1..] == [];
  }

  /**
   * What the server answers each command without parameters when it is run
   * with the test handlers and no retries.
   */
  lemma TestTableAnswers(traceOf: Error -> string, name: string, errorTotal: nat)
    ensures Dispatch(TestHandlerTable, [], traceOf, name, None, errorTotal)
            == if name == "assert" then StepRun([ErrorResponse(Error(AssertError, "test assert"), traceOf)], [], errorTotal, false)
               else if name == "request-simple" then StepRun([Response(Some(Bool(true)))], [], errorTotal, false)
               else if name == "request-complex" then
                 StepRun([Response(Some(Bool(false))), OutOfBand(Some("LINEOFTEXT")), OutOfBand(None)], [], errorTotal, false)
               else if name == "error-until-0" then
                 (if errorTotal > 0 then StepRun([ErrorResponse(Error(FormatError, "error-until-0"), traceOf)], [], errorTotal - 1, false)
                  else StepRun([Response(Some(Bool(true)))], [], errorTotal, false))
               else if name == CommandExit then StepRun([], [], errorTotal, true)
               else if name == CommandNoOp then StepRun([Response(None)], [], errorTotal, false)
               else StepRun([ErrorResponse(Error(ProtocolError, "invalid command '" + name + "'"), traceOf)], [], errorTotal, false)
  {
    TestHandlerLookup(name);
  }

  /** What serving one request line writes, the sleeps it takes, the counter after it and whether it was exit. */
  datatype StepRun = StepRun(lines: seq<Message>, sleeps: seq<nat>, errorTotal: nat, exit: bool)

  function ErrorResponse(e: Error, traceOf: Error -> string): Message
  {
    ErrorReply(e, traceOf(e))
  }

  /**
   * Serving one request line. A line that does not decode is answered with
   * its error. A registered name runs its handler with retries, and a fault
   * that survives them is answered as an error. Otherwise "exit" stops the
   * loop, "noop" answers {}, and any other name is an invalid command.
   */
  function Step(handlers: seq<(string, Handler)>, intervals: seq<nat>, traceOf: Error -> string,
                line: string, errorTotal: nat): (r: StepRun)
    ensures r.exit ==> r.lines == [] && r.sleeps == [] && r.errorTotal == errorTotal
  {
    match DecodeCommand(line)
    case Fail(e) => StepRun([ErrorResponse(e, traceOf)], [], errorTotal, false)
    case Ok((name, params)) => Dispatch(handlers, intervals, traceOf, name, params, errorTotal)
  }

  /** Serving a decoded command. */
  function Dispatch(handlers: seq<(string, Handler)>, intervals: seq<nat>, traceOf: Error -> string,
                    name: string, params: Option<seq<Value>>, errorTotal: nat): (r: StepRun)
    ensures r.exit <==> Lookup(handlers, name) == |handlers| && name == CommandExit
    ensures r.exit ==> r.lines == [] && r.sleeps == [] && r.errorTotal == errorTotal
  {
    var i := Lookup(handlers, name);
    if i < |handlers| then
      var a := Attempts(handlers[i].1, params, errorTotal, intervals, |intervals|);
      StepRun(a.lines + (if a.fault.Some? then [ErrorResponse(a.fault.value, traceOf)] else []), a.sleeps, a.errorTotal, false)
    else if name == CommandExit then StepRun([], [], errorTotal, true)
    else if name == CommandNoOp then StepRun([Response(None)], [], errorTotal, false)
    else StepRun([ErrorResponse(Error(ProtocolError, "invalid command '" + name + "'"), traceOf)], [], errorTotal, false)
  }

  /** Everything a run of the process loop has done so far. */
  datatype ServerRun = ServerRun(output: seq<Message>, sleeps: seq<nat>, errorTotal: nat, consumed: nat, exited: bool)

  /** The process loop from the state reached so far: serve lines until exit or the end of input. */
  function Serve(handlers: seq<(string, Handler)>, intervals: seq<nat>, traceOf: Error -> string,
                 input: seq<string>, run: ServerRun): (r: ServerRun)
    requires run.consumed <= |input|
    ensures run.consumed <= r.consumed <= |input|
    ensures r.exited || r.consumed == |input|
    decreases |input| - run.consumed
  {
    if run.exited || run.consumed == |input| then run
    else
      var s := Step(handlers, intervals, traceOf, input[run.consumed], run.errorTotal);
      Serve(handlers, intervals, traceOf, input,
            ServerRun(run.output + s.lines, run.sleeps + s.sleeps, s.errorTotal, run.consumed + 1, s.exit))
  }

  /** Serving one more line, unless the loop has already stopped. */
  lemma ServeStep(handlers: seq<(string, Handler)>, intervals: seq<nat>, traceOf: Error -> string,
                  input: seq<string>, run: ServerRun)
    requires run.consumed < |input| && !run.exited
    ensures var s := Step(handlers, intervals, traceOf, input[run.consumed], run.errorTotal);
            Serve(handlers, intervals, traceOf, input, run)
            == Serve(handlers, intervals, traceOf, input,
                     ServerRun(run.output + s.lines, run.sleeps + s.sleeps, s.errorTotal, run.consumed + 1, s.exit))
  {
  }

  /** Once the loop has stopped, serving changes nothing. */
  lemma ServeDone(handlers: seq<(string, Handler)>, intervals: seq<nat>, traceOf: Error -> string,
                  input: seq<string>, run: ServerRun)
    requires run.consumed <= |input| && (run.exited || run.consumed == |input|)
    ensures Serve(handlers, intervals, traceOf, input, run) == run
  {
  }

  function Start(errorTotal: nat): ServerRun
  {
    ServerRun([], [], errorTotal, 0, false)
  }

  /** The loop stops right after the first exit: the lines before it are served and none after. */
  lemma {:induction false} ServeStopsAtExit(handlers: seq<(string, Handler)>, intervals: seq<nat>, traceOf: Error -> string,
                                            input: seq<string>, run: ServerRun, k: nat)
    requires run.consumed <= k < |input| && !run.exited
    requires Lookup(handlers, CommandExit) == |handlers|
    requires input[k] == CommandJson(Command(CommandExit, []))
    ensures Serve(handlers, intervals, traceOf, input, run).consumed <= k + 1
    ensures Serve(handlers, intervals, traceOf, input, run).exited
    decreases k - run.consumed
  {
    var s := Step(handlers, intervals, traceOf, input[run.consumed], run.errorTotal);
    if run.consumed == k {
      DecodeCommandJson(Command(CommandExit, []));
      assert s.exit;
    } else if !s.exit {
      ServeStopsAtExit(handlers, intervals, traceOf, input,
                       ServerRun(run.output + s.lines, run.sleeps + s.sleeps, s.errorTotal, run.consumed + 1, s.exit), k);
    }
  }

  /** A registered handler given parameters faults on the spot, and with no retries its fault is the answer. */
  lemma ParamFaultAnswered(handlers: seq<(string, Handler)>, traceOf: Error -> string, name: string, params: seq<Value>, errorTotal: nat)
    requires Lookup(handlers, name) < |handlers|
    ensures Dispatch(handlers, [], traceOf, name, Some(params), errorTotal)
            == StepRun([ErrorResponse(ParamAssert, traceOf)], [], errorTotal, false)
  {
    var h := handlers[Lookup(handlers, name)].1;
    assert Attempts(h, Some(params), errorTotal, [], 0) == AttemptRun([], Some(ParamAssert), [], errorTotal);
  }

  /** A fault a handler cannot recover from is answered as an error line and the loop goes on. */
  lemma HandlerFaultAnswered(handlers: seq<(string, Handler)>, traceOf: Error -> string, c: Command, errorTotal: nat)
    requires Lookup(handlers, c.name) < |handlers|
    requires |c.params| > 0
    ensures Step(handlers, [], traceOf, CommandJson(c), errorTotal)
            == StepRun([ErrorResponse(ParamAssert, traceOf)], [], errorTotal, false)
  {
    DecodeCommandJson(c);
    ParamFaultAnswered(handlers, traceOf, c.name, c.params, errorTotal);
  }

  /** A name nobody registered and that is neither exit nor noop is answered with ProtocolError. */
  lemma UnknownCommandAnswered(handlers: seq<(string, Handler)>, intervals: seq<nat>, traceOf: Error -> string,
                               c: Command, errorTotal: nat)
    requires Lookup(handlers, c.name) == |handlers|
    requires c.name != CommandExit && c.name != CommandNoOp
    ensures Step(handlers, intervals, traceOf, CommandJson(c), errorTotal)
            == StepRun([ErrorResponse(Error(ProtocolError, "invalid command '" + c.name + "'"), traceOf)], [], errorTotal, false)
  {
    DecodeCommandJson(c);
  }

  /** noop is answered with an empty response unless a handler claims the name. */
  lemma NoOpAnswered(handlers: seq<(string, Handler)>, intervals: seq<nat>, traceOf: Error -> string, errorTotal: nat)
    requires Lookup(handlers, CommandNoOp) == |handlers|
    ensures Step(handlers, intervals, traceOf, CommandJson(Command(CommandNoOp, [])), errorTotal)
            == StepRun([Response(None)], [], errorTotal, false)
  {
    DecodeCommandJson(Command(CommandNoOp, []));
  }

  // ---------------------------------------------------------------------
  // The server
  // ---------------------------------------------------------------------

  lemma Associated(a: seq<Message>, b: seq<Message>, c: seq<Message>)
    ensures (a + b) + c == a + (b + c)
  {
  }

  class Server {
    const name: string
    const service: string
    /** Every message written to the client so far; Lines(output) is the text sent. */
    var output: seq<Message>

    /** Creating a server writes the greeting. */
    constructor(name: string, service: string, version: string)
      ensures this.name == name && this.service == service
      ensures output == [Greeting(service, version)]
    {
      this.name := name;
      this.service := service;
      output := [Greeting(service, version)];
    }

    /** Runs a registered handler, retrying it once per interval while it faults. */
    method RunHandler(h: Handler, params: Option<seq<Value>>, intervals: seq<nat>, handlers: TestHandlers)
      returns (fault: Option<Error>, sleeps: seq<nat>)
      modifies this, handlers
      ensures var a := Attempts(h, params, old(handlers.errorTotal), intervals, |intervals|);
              output == old(output) + a.lines && fault == a.fault && sleeps == a.sleeps && handlers.errorTotal == a.errorTotal
    {
      var remaining: nat := |intervals|;
      sleeps := [];
      var retry := true;
      ghost var written: seq<Message> := [];
      ghost var goal := Attempts(h, params, handlers.errorTotal, intervals, |intervals|);
      fault := None;
      while retry
        invariant remaining <= |intervals|
        invariant retry ==> goal == Then(written, sleeps, Attempts(h, params, handlers.errorTotal, intervals, remaining))
        invariant !retry ==> goal == AttemptRun(written, fault, sleeps, handlers.errorTotal)
        invariant output == old(output) + written
        decreases retry, remaining
      {
        ghost var cur := handlers.errorTotal;
        ghost var run := HandleSpec(h, params, cur);
        AttemptsStep(h, params, cur, intervals, remaining);
        var lines, f := handlers.Handle(h, params);
        assert lines == run.lines && f == run.fault && handlers.errorTotal == run.errorTotal;
        Associated(old(output), written, lines);
        output := output + lines;
        if f.Some? && remaining > 0 {
          var sleep := intervals[|intervals| - remaining];
          var slept := if sleep > 0 then [sleep] else [];
          ghost var rest := Attempts(h, params, run.errorTotal, intervals, remaining - 1);
          ThenThen(written, sleeps, lines, slept, rest);
          sleeps := sleeps + slept;
          remaining := remaining - 1;
        } else {
          fault := f;
          retry := false;
        }
        written := written + lines;
      }
    }

    /** Serves one request line. */
    method ProcessLine(line: string, intervals: seq<nat>, handlerTable: seq<(string, Handler)>,
                       handlers: TestHandlers, traceOf: Error -> string)
      returns (exit: bool, sleeps: seq<nat>)
      modifies this, handlers
      ensures var s := Step(handlerTable, intervals, traceOf, line, old(handlers.errorTotal));
              output == old(output) + s.lines && sleeps == s.sleeps && handlers.errorTotal == s.errorTotal && exit == s.exit
    {
      exit := false;
      sleeps := [];
      var decoded := DecodeCommand(line);
      if decoded.Fail? {
        output := output + [ErrorResponse(decoded.error, traceOf)];
        return;
      }
      var (command, params) := decoded.value;
      var i := Lookup(handlerTable, command);
      if i < |handlerTable| {
        var fault;
        fault, sleeps := RunHandler(handlerTable[i].1, params, intervals, handlers);
        if fault.Some? {
          output := output + [ErrorResponse(fault.value, traceOf)];
        }
      } else if command == CommandExit {
        exit := true;
      } else if command == CommandNoOp {
        output := output + [Response(None)];
      } else {
        output := output + [ErrorResponse(Error(ProtocolError, "invalid command '" + command + "'"), traceOf)];
      }
    }

    /**
     * The process loop: serves request lines in order until one is exit or
     * the input runs out, and returns how many lines it read.
     */
    method Process(input: seq<string>, intervals: seq<nat>, handlerTable: seq<(string, Handler)>,
                   handlers: TestHandlers, traceOf: Error -> string)
      returns (consumed: nat, sleeps: seq<nat>)
      modifies this, handlers
      ensures var r := Serve(handlerTable, intervals, traceOf, input, Start(old(handlers.errorTotal)));
              output == old(output) + r.output && sleeps == r.sleeps && handlers.errorTotal == r.errorTotal
              && consumed == r.consumed
    {
      consumed := 0;
      sleeps := [];
      var exit := false;
      ghost var written: seq<Message> := [];
      ghost var goal := Serve(handlerTable, intervals, traceOf, input, Start(handlers.errorTotal));
      while !exit && consumed < |input|
        invariant consumed <= |input|
        invariant goal == Serve(handlerTable, intervals, traceOf, input, ServerRun(written, sleeps, handlers.errorTotal, consumed, exit))
        invariant output == old(output) + written
        decreases |input| - consumed
      {
        ghost var run := ServerRun(written, sleeps, handlers.errorTotal, consumed, exit);
        ghost var s := Step(handlerTable, intervals, traceOf, input[consumed], run.errorTotal);
        ServeStep(handlerTable, intervals, traceOf, input, run);
        var stop, slept := ProcessLine(input[consumed], intervals, handlerTable, handlers, traceOf);
        assert stop == s.exit && slept == s.sleeps && handlers.errorTotal == s.errorTotal;
        Associated(old(output), written, s.lines);
        written := written + s.lines;
        sleeps := sleeps + slept;
        consumed := consumed + 1;
        exit := stop;
        assert ServerRun(written, sleeps, handlers.errorTotal, consumed, exit)
               == ServerRun(run.output + s.lines, run.sleeps + s.sleeps, s.errorTotal, run.consumed + 1, s.exit);
      }
      ServeDone(handlerTable, intervals, traceOf, input, ServerRun(written, sleeps, handlers.errorTotal, consumed, exit));
    }
  }
}

module ProtocolServerSessions {
  import opened Errors
  import opened Json
  import opened ProtocolCommand
  import opened ProtocolServer

  /** The request lines of a sequence of commands. */
  function Requests(cs: seq<Command>): (lines: seq<string>)
    ensures |lines| == |cs|
    ensures forall k :: 0 <= k < |cs| ==> lines[k] == CommandJson(cs[k])
  {
    if |cs| == 0 then [] else [CommandJson(cs[0])] + Requests(cs[1..])
  }

  function ParamsOf(c: Command): Option<seq<Value>>
  {
    if |c.params| == 0 then None else Some(c.params)
  }

  /** The process loop over already decoded commands. */
  function ServeCommands(handlers: seq<(string, Handler)>, intervals: seq<nat>, traceOf: Error -> string,
                         cs: seq<Command>, run: ServerRun): (r: ServerRun)
    requires run.consumed <= |cs|
    decreases |cs| - run.consumed
  {
    if run.exited || run.consumed == |cs| then run
    else
      var c := cs[run.consumed];
      var s := Dispatch(handlers, intervals, traceOf, c.name, ParamsOf(c), run.errorTotal);
      ServeCommands(handlers, intervals, traceOf, cs,
                    ServerRun(run.output + s.lines, run.sleeps + s.sleeps, s.errorTotal, run.consumed + 1, s.exit))
  }

  /** One command more, unless the loop has already stopped. */
  lemma ServeCommandsStep(handlers: seq<(string, Handler)>, intervals: seq<nat>, traceOf: Error -> string,
                          cs: seq<Command>, run: ServerRun, s: StepRun)
    requires run.consumed < |cs| && !run.exited
    requires s == Dispatch(handlers, intervals, traceOf, cs[run.consumed].name, ParamsOf(cs[run.consumed]), run.errorTotal)
    ensures ServeCommands(handlers, intervals, traceOf, cs, run)
            == ServeCommands(handlers, intervals, traceOf, cs,
                             ServerRun(run.output + s.lines, run.sleeps + s.sleeps, s.errorTotal, run.consumed + 1, s.exit))
  {
  }

  /** Serving the request lines of commands is serving the commands themselves. */
  lemma {:induction false} ServeRequests(handlers: seq<(string, Handler)>, intervals: seq<nat>, traceOf: Error -> string,
                                         cs: seq<Command>, run: ServerRun)
    requires run.consumed <= |cs|
    ensures Serve(handlers, intervals, traceOf, Requests(cs), run) == ServeCommands(handlers, intervals, traceOf, cs, run)
    decreases |cs| - run.consumed
  {
    var input := Requests(cs);
    if !run.exited && run.consumed < |cs| {
      var c := cs[run.consumed];
      DecodeCommandJson(c);
      var s := Dispatch(handlers, intervals, traceOf, c.name, ParamsOf(c), run.errorTotal);
      assert Step(handlers, intervals, traceOf, input[run.consumed], run.errorTotal) == s;
      var next := ServerRun(run.output + s.lines, run.sleeps + s.sleeps, s.errorTotal, run.consumed + 1, s.exit);
      ServeStep(handlers, intervals, traceOf, input, run);
      ServeCommandsStep(handlers, intervals, traceOf, cs, run, s);
      ServeRequests(handlers, intervals, traceOf, cs, next);
    } else {
      ServeDone(handlers, intervals, traceOf, input, run);
    }
  }

  lemma Appended3(a: Message, b: Message, c: Message)
    ensures [a] + [b] + [c] == [a, b, c]
  {
  }

  lemma Appended7(a: Message, b: Message, c: Message, d: Message, e: Message, f: Message, g: Message)
    ensures [a, b, c] + ([d] + [e, f, g]) == [a, b, c, d, e, f, g]
  {
  }

  /** The commands of the first session, in the order the client sends them. */
  const FirstCommands := [Command("noop", []), Command("bogus", []), Command("request-simple", []), Command("assert", []),
                          Command("request-complex", []), Command("exit", [])]

  /** The first three commands of the first session each answer one line. */
  lemma FirstSessionOpening(traceOf: Error -> string, errorTotal: nat)
    ensures ServeCommands(TestHandlerTable, [], traceOf, FirstCommands, Start(errorTotal))
            == ServeCommands(TestHandlerTable, [], traceOf, FirstCommands,
                             ServerRun([Response(None),
                                        ErrorResponse(Error(ProtocolError, "invalid command '" + "bogus" + "'"), traceOf),
                                        Response(Some(Bool(true)))], [], errorTotal, 3, false))
  {
    var t := TestHandlerTable;
    var cs := FirstCommands;
    TestTableAnswers(traceOf, "noop", errorTotal);
    TestTableAnswers(traceOf, "bogus", errorTotal);
    TestTableAnswers(traceOf, "request-simple", errorTotal);
    var r0 := Start(errorTotal);
    ServeCommandsStep(t, [], traceOf, cs, r0, StepRun([Response(None)], [], errorTotal, false));
    var r1 := ServerRun([Response(None)], [], errorTotal, 1, false);
    assert r0.output + [Response(None)] == r1.output;
    var e1 := ErrorResponse(Error(ProtocolError, "invalid command '" + "bogus" + "'"), traceOf);
    ServeCommandsStep(t, [], traceOf, cs, r1, StepRun([e1], [], errorTotal, false));
    var r2 := ServerRun(r1.output + [e1], [], errorTotal, 2, false);
    ServeCommandsStep(t, [], traceOf, cs, r2, StepRun([Response(Some(Bool(true)))], [], errorTotal, false));
    Appended3(Response(None), e1, Response(Some(Bool(true))));
    assert r2.sleeps + [] == [];
  }

  /** The last three: assert answers its error, request-complex three lines, and exit stops the loop. */
  lemma FirstSessionClosing(traceOf: Error -> string, errorTotal: nat, opening: seq<Message>)
    ensures ServeCommands(TestHandlerTable, [], traceOf, FirstCommands, ServerRun(opening, [], errorTotal, 3, false))
            == ServerRun(opening + ([ErrorResponse(Error(AssertError, "test assert"), traceOf)]
                                    + [Response(Some(Bool(false))), OutOfBand(Some("LINEOFTEXT")), OutOfBand(None)]),
                         [], errorTotal, 6, true)
  {
    var t := TestHandlerTable;
    var cs := FirstCommands;
    TestTableAnswers(traceOf, "assert", errorTotal);
    TestTableAnswers(traceOf, "request-complex", errorTotal);
    TestTableAnswers(traceOf, "exit", errorTotal);
    var r3 := ServerRun(opening, [], errorTotal, 3, false);
    var e3 := ErrorResponse(Error(AssertError, "test assert"), traceOf);
    ServeCommandsStep(t, [], traceOf, cs, r3, StepRun([e3], [], errorTotal, false));
    var r4 := ServerRun(r3.output + [e3], [], errorTotal, 4, false);
    var complex := [Response(Some(Bool(false))), OutOfBand(Some("LINEOFTEXT")), OutOfBand(None)];
    ServeCommandsStep(t, [], traceOf, cs, r4, StepRun(complex, [], errorTotal, false));
    var r5 := ServerRun(r4.output + complex, [], errorTotal, 5, false);
    ServeCommandsStep(t, [], traceOf, cs, r5, StepRun([], [], errorTotal, true));
    var r6 := ServerRun(r5.output, [], errorTotal, 6, true);
    assert ServerRun(r5.output + [], r5.sleeps + [], errorTotal, 6, true) == r6;
    assert ServeCommands(t, [], traceOf, cs, r6) == r6;
    Associated(opening, [e3], complex);
  }

  /**
   * The first session: noop answers {}, an unknown command answers
   * ProtocolError, request-simple answers true, assert answers its
   * AssertError, request-complex answers false then two out-of-band lines,
   * and exit stops the loop after six commands.
   */
  lemma FirstSession(traceOf: Error -> string, errorTotal: nat)
    ensures ServeCommands(TestHandlerTable, [], traceOf, FirstCommands, Start(errorTotal))
            == ServerRun([Response(None),
                          ErrorResponse(Error(ProtocolError, "invalid command '" + "bogus" + "'"), traceOf),
                          Response(Some(Bool(true))),
                          ErrorResponse(Error(AssertError, "test assert"), traceOf),
                          Response(Some(Bool(false))), OutOfBand(Some("LINEOFTEXT")), OutOfBand(None)],
                         [], errorTotal, 6, true)
  {
    var e1 := ErrorResponse(Error(ProtocolError, "invalid command '" + "bogus" + "'"), traceOf);
    var e3 := ErrorResponse(Error(AssertError, "test assert"), traceOf);
    FirstSessionOpening(traceOf, errorTotal);
    FirstSessionClosing(traceOf, errorTotal, [Response(None), e1, Response(Some(Bool(true)))]);
    Appended7(Response(None), e1, Response(Some(Bool(true))), e3,
              Response(Some(Bool(false))), OutOfBand(Some("LINEOFTEXT")), OutOfBand(None));
  }

  /**
   * The second session: with retry intervals [0, 50] and a handler that
   * faults twice, the client sees exactly one {"out":true} and no error, the
   * server sleeps once (the zero interval is no sleep) and the loop stops at exit.
   */
  lemma RetrySession(traceOf: Error -> string)
    ensures ServeCommands(TestHandlerTable, [0, 50], traceOf, [Command("error-until-0", []), Command("exit", [])], Start(2))
            == ServerRun([Response(Some(Bool(true)))], [50], 0, 2, true)
  {
    var t := TestHandlerTable;
    var cs := [Command("error-until-0", []), Command("exit", [])];
    TestHandlerLookup("error-until-0");
    TestHandlerLookup("exit");
    ErrorUntil0Recovers(2, [0, 50], 2);
    assert PositiveFrom([0, 50], 0, 2) == [50];
    var s1 := StepRun([Response(Some(Bool(true)))], [50], 0, false);
    ServeCommandsStep(t, [0, 50], traceOf, cs, Start(2), s1);
    var r1 := ServerRun([Response(Some(Bool(true)))], [50], 0, 1, false);
    assert Start(2).output + s1.lines == r1.output && Start(2).sleeps + s1.sleeps == r1.sleeps;
    ServeCommandsStep(t, [0, 50], traceOf, cs, r1, StepRun([], [], 0, true));
    assert r1.output + [] == r1.output && r1.sleeps + [] == r1.sleeps;
  }
}
