// The client end of the protocol: greeting validation when a client is
// created, and the classification of the lines a server sends back. Each
// operation is a function of the line it reads; the debug log level, which
// decides whether remote stack traces are shown, is a parameter.

module ProtocolClient {
  import opened Errors
  import opened Json
  import opened ProtocolCommand

  /** A connected client: the name it reports errors under and the service it talks to. */
  datatype Client = Client(name: string, service: string)

  const GreetingHint := "\nHINT: is the same version of pgBackRest installed on the local and remote host?"

  /** The greeting keys in the order they are checked, with the value each must hold. */
  function ExpectedGreeting(service: string, version: string): seq<(string, string)>
  {
    [(GreetingKeyName, ProjectName), (GreetingKeyService, service), (GreetingKeyVersion, version)]
  }

  function MismatchMessage(key: string, expected: string, got: string): string
  {
    "expected value '" + expected + "' for greeting key '" + key + "' but got '" + got + "'" + GreetingHint
  }

  /** The fault, if any, of one greeting key. */
  function CheckGreetingKey(members: seq<(string, Value)>, key: string, expected: string): (r: Option<Error>)
    ensures r == None <==> Get(members, key) == Some(Str(expected))
    ensures Get(members, key) == None ==>
              r == Some(Error(ProtocolError, "unable to find greeting key '" + key + "'"))
    ensures (Get(members, key).Some? && !Get(members, key).value.Str?) ==>
              r == Some(Error(ProtocolError, "greeting key '" + key + "' must be string type"))
    ensures (Get(members, key).Some? && Get(members, key).value.Str? && Get(members, key).value.s != expected) ==>
              r == Some(Error(ProtocolError, MismatchMessage(key, expected, Get(members, key).value.s)))
  {
    match Get(members, key)
    case None => Some(Error(ProtocolError, "unable to find greeting key '" + key + "'"))
    case Some(v) =>
      if !v.Str? then Some(Error(ProtocolError, "greeting key '" + key + "' must be string type"))
      else if v.s != expected then Some(Error(ProtocolError, MismatchMessage(key, expected, v.s)))
      else None
  }

  /** The first fault among the expected keys, checked in order. */
  function CheckGreeting(members: seq<(string, Value)>, expected: seq<(string, string)>): (r: Option<Error>)
    ensures r == None <==> forall k :: 0 <= k < |expected| ==> Get(members, expected[k].0) == Some(Str(expected[k].1))
    ensures r.Some? ==>
              exists k :: 0 <= k < |expected| && r == CheckGreetingKey(members, expected[k].0, expected[k].1) &&
                forall j :: 0 <= j < k ==> CheckGreetingKey(members, expected[j].0, expected[j].1) == None
  {
    if |expected| == 0 then None
    else
      var first := CheckGreetingKey(members, expected[0].0, expected[0].1);
      if first.Some? then first
      else
        var r := CheckGreeting(members, expected[1..]);
        assert r.Some? ==> (exists k :: 1 <= k < |expected| && r == CheckGreetingKey(members, expected[k].0, expected[k].1) &&
                              forall j :: 0 <= j < k ==> CheckGreetingKey(members, expected[j].0, expected[j].1) == None) by {
          if r.Some? {
            var k' :| 0 <= k' < |expected[1..]| && r == CheckGreetingKey(members, expected[1..][k'].0, expected[1..][k'].1) &&
                forall j :: 0 <= j < k' ==> CheckGreetingKey(members, expected[1..][j].0, expected[1..][j].1) == None;
            assert forall j :: 0 <= j < k' + 1 ==> CheckGreetingKey(members, expected[j].0, expected[j].1) == None by {
              forall j | 0 <= j < k' + 1
                ensures CheckGreetingKey(members, expected[j].0, expected[j].1) == None
              {
                if j > 0 { assert expected[j] == expected[1..][j - 1]; }
              }
            }
          }
        }
        r
  }

  /** The greeting line decodes to an object holding the project name and the expected service and version. */
  predicate GreetingHolds(greeting: string, service: string, version: string)
  {
    DecodeLine(greeting).Ok? &&
    Get(DecodeLine(greeting).value, GreetingKeyName) == Some(Str(ProjectName)) &&
    Get(DecodeLine(greeting).value, GreetingKeyService) == Some(Str(service)) &&
    Get(DecodeLine(greeting).value, GreetingKeyVersion) == Some(Str(version))
  }

  /**
   * Creating a client reads the greeting line: it must be an object whose
   * name, service and version hold the expected strings. A client that
   * accepts the greeting then makes a no-op round trip: it writes the noop
   * request and reads noopReply, which must carry neither an error nor
   * output. The result holds the lines written and the client or the fault.
   */
  function ClientNew(name: string, service: string, version: string, greeting: string, noopReply: string, debug: bool): (r: (seq<string>, Result<Client>))
    ensures r.1.Ok? <==> GreetingHolds(greeting, service, version) && ReadOutput(name, noopReply, false, debug) == Ok(None)
    ensures r.1.Ok? ==> r.1.value == Client(name, service)
    ensures r.0 == if GreetingHolds(greeting, service, version) then [NoOp(Client(name, service), noopReply, debug).0] else []
    ensures DecodeLine(greeting).Fail? ==> r.1 == Fail(DecodeLine(greeting).error)
    ensures DecodeLine(greeting).Ok? && !GreetingHolds(greeting, service, version) ==>
              CheckGreeting(DecodeLine(greeting).value, ExpectedGreeting(service, version)).Some? &&
              r.1 == Fail(CheckGreeting(DecodeLine(greeting).value, ExpectedGreeting(service, version)).value)
    ensures GreetingHolds(greeting, service, version) && NoOp(Client(name, service), noopReply, debug).1.Raise? ==>
              r.1 == Fail(NoOp(Client(name, service), noopReply, debug).1.error)
  {
    match DecodeLine(greeting)
    case Fail(e) => ([], Fail(e))
    case Ok(members) =>
      var expected := ExpectedGreeting(service, version);
      match CheckGreeting(members, expected)
      case Some(e) => ([], Fail(e))
      case None =>
        assert Get(members, expected[0].0) == Some(Str(expected[0].1));
        assert Get(members, expected[1].0) == Some(Str(expected[1].1));
        assert Get(members, expected[2].0) == Some(Str(expected[2].1));
        var client := Client(name, service);
        var noop := NoOp(client, noopReply, debug);
        match noop.1
        case Pass => ([noop.0], Ok(client))
        case Raise(e) => ([noop.0], Fail(e))
  }

  /**
   * The integer a value forces to; values that are not numbers or booleans
   * force to 0, so an "err" key holding, say, a string reads as code 0,
   * which is outside the error table.
   */
  function IntForce(v: Value): (i: int)
    ensures v.Int? ==> i == v.i
    ensures v.Bool? ==> i == if v.b then 1 else 0
    ensures !v.Int? && !v.Bool? ==> i == 0
  {
    match v
    case Int(i) => i
    case Bool(b) => if b then 1 else 0
    case _ => 0
  }

  /**
   * The string a response holds under a key, or the fallback when the key is
   * absent; a value that is not a string also gives the fallback.
   */
  function StringOr(v: Option<Value>, fallback: string): (s: string)
    ensures v.Some? && v.value.Str? ==> s == v.value.s
    ensures !(v.Some? && v.value.Str?) ==> s == fallback
  {
    if v.Some? && v.value.Str? then v.value.s else fallback
  }

  /**
   * The error a response reports, if it has an "err" key: the kind the code
   * names, the message prefixed with the client's name, and the remote stack
   * on a second line for assertions or when debug logging is on.
   */
  function ProcessError(name: string, members: seq<(string, Value)>, debug: bool): (r: Option<Error>)
    ensures r.Some? <==> Get(members, KeyError).Some?
    ensures r.Some? ==> r.value.errType == TypeFromCode(IntForce(Get(members, KeyError).value))
    ensures r.Some? ==>
              var head := "raised from " + name + ": " + StringOr(Get(members, KeyOutput), "no details available");
              if r.value.errType == AssertError || debug
              then r.value.message == head + "\n" + StringOr(Get(members, KeyErrorStack), "no stack trace available")
              else r.value.message == head
  {
    match Get(members, KeyError)
    case None => None
    case Some(code) =>
      var errType := TypeFromCode(IntForce(code));
      var head := "raised from " + name + ": " + StringOr(Get(members, KeyOutput), "no details available");
      if errType == AssertError || debug then
        Some(Error(errType, head + "\n" + StringOr(Get(members, KeyErrorStack), "no stack trace available")))
      else Some(Error(errType, head))
  }

  /**
   * Reads the terminating response of a command. A remote error is raised;
   * otherwise the "out" value is returned when output is required, and its
   * presence is a fault when it is not.
   */
  function ReadOutput(name: string, line: string, required: bool, debug: bool): (r: Result<Option<Value>>)
    ensures DecodeLine(line).Fail? ==> r == Fail(DecodeLine(line).error)
    ensures DecodeLine(line).Ok? && ProcessError(name, DecodeLine(line).value, debug).Some? ==>
              r == Fail(ProcessError(name, DecodeLine(line).value, debug).value)
    ensures r.Ok? ==> DecodeLine(line).Ok? && ProcessError(name, DecodeLine(line).value, debug).None?
    ensures r.Ok? && required ==> r.value == Get(DecodeLine(line).value, KeyOutput)
    ensures r.Ok? && !required ==> r.value == None
    ensures !required && DecodeLine(line).Ok? && ProcessError(name, DecodeLine(line).value, debug).None? ==>
              (r.Fail? <==> Get(DecodeLine(line).value, KeyOutput).Some?)
  {
    match DecodeLine(line)
    case Fail(e) => Fail(e)
    case Ok(members) =>
      match ProcessError(name, members, debug)
      case Some(e) => Fail(e)
      case None =>
        var out := Get(members, KeyOutput);
        if required then Ok(out)
        else if out.Some? then Fail(Error(AssertError, "no output required by command"))
        else Ok(None)
  }

  /**
   * Reads one out-of-band line: "." followed by the text. An empty line, an
   * object (which must carry an error) and any other first character are
   * faults.
   */
  function ReadLine(name: string, line: string, debug: bool): (r: Result<string>)
    ensures r.Ok? <==> |line| > 0 && line[0] == '.'
    ensures r.Ok? ==> r.value == line[1..]
    ensures |line| == 0 ==> r == Fail(Error(FormatError, "unexpected empty line"))
    ensures |line| > 0 && line[0] != '{' && line[0] != '.' ==>
              r == Fail(Error(FormatError, "invalid prefix in '" + line + "'"))
    ensures |line| > 0 && line[0] == '{' && DecodeLine(line).Ok? ==>
              r == Fail(if ProcessError(name, DecodeLine(line).value, debug).Some?
                        then ProcessError(name, DecodeLine(line).value, debug).value
                        else Error(FormatError, "expected error but got output"))
  {
    if |line| == 0 then Fail(Error(FormatError, "unexpected empty line"))
    else if line[0] == '{' then
      match DecodeLine(line)
      case Fail(e) => Fail(e)
      case Ok(members) =>
        match ProcessError(name, members, debug)
        case Some(e) => Fail(e)
        case None => Fail(Error(FormatError, "expected error but got output"))
    else if line[0] != '.' then Fail(Error(FormatError, "invalid prefix in '" + line + "'"))
    else Ok(line[1..])
  }

  /**
   * A no-op round trip: the request line written and the outcome of reading
   * the response, which must carry no output.
   */
  function NoOp(client: Client, response: string, debug: bool): (r: (string, Outcome))
    ensures r.0 == CommandJson(Command(CommandNoOp, []))
    ensures r.1 == Pass <==> ReadOutput(client.name, response, false, debug) == Ok(None)
    ensures r.1.Raise? ==> ReadOutput(client.name, response, false, debug) == Fail(r.1.error)
  {
    var request := CommandJson(Command(CommandNoOp, []));
    match ReadOutput(client.name, response, false, debug)
    case Ok(_) => (request, Pass)
    case Fail(e) => (request, Raise(e))
  }
}
