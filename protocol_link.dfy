// What the client makes of the lines the server writes: each kind of
// server message read back through the client's classification.

module ProtocolLink {
  import opened Errors
  import opened Json
  import opened ProtocolCommand
  import opened ProtocolClient
  import opened ProtocolServer

  /** The error a client raises for an error response of the server. */
  function Raised(name: string, e: Error, stack: string, debug: bool): Error
  {
    Error(e.errType, "raised from " + name + ": " + e.message
                     + (if e.errType == AssertError || debug then "\n" + stack else ""))
  }

  lemma ResponseGet(out: Option<Value>)
    requires out != Some(Null)
    ensures DecodeLine(ResponseLine(out)) == Ok(ResponseMembers(out))
    ensures Get(ResponseMembers(out), KeyError) == None
    ensures Get(ResponseMembers(out), KeyOutput) == out
  {
    DecodeEncodeLine(ResponseMembers(out));
  }

  /**
   * A response is read as its output when output is required; when it is
   * not, an output is a fault and its absence is success. (A null output
   * reads as no output.)
   */
  lemma ReadOutputOfResponse(name: string, out: Option<Value>, required: bool, debug: bool)
    requires out != Some(Null)
    ensures ReadOutput(name, ResponseLine(out), required, debug)
            == if required then Ok(out)
               else if out.Some? then Fail(Error(AssertError, "no output required by command"))
               else Ok(None)
  {
    ResponseGet(out);
  }

  lemma ErrorGet(e: Error, stack: string)
    ensures DecodeLine(ErrorLine(e, stack)) == Ok(ErrorMembers(e, stack))
    ensures Get(ErrorMembers(e, stack), KeyError) == Some(Int(Code(e.errType)))
    ensures Get(ErrorMembers(e, stack), KeyOutput) == Some(Str(e.message))
    ensures Get(ErrorMembers(e, stack), KeyErrorStack) == Some(Str(stack))
  {
    DecodeEncodeLine(ErrorMembers(e, stack));
    var ms := ErrorMembers(e, stack);
    assert ms[..2][..1] == [ms[0]];
    assert ms[..2] == [ms[0], ms[1]];
    assert KeyError != KeyOutput && KeyError != KeyErrorStack && KeyErrorStack != KeyOutput;
    assert Get(ms, KeyError) == Get(ms[..2], KeyError) == Get(ms[..2][..1], KeyError);
    assert Get(ms, KeyErrorStack) == Get(ms[..2], KeyErrorStack);
  }

  /** An error response is raised with the same kind, the client's name, and the stack for assertions or in debug. */
  lemma ProcessErrorOfError(name: string, e: Error, stack: string, debug: bool)
    ensures ProcessError(name, ErrorMembers(e, stack), debug) == Some(Raised(name, e, stack, debug))
  {
    ErrorGet(e, stack);
    TypeFromCodeOfCode(e.errType);
    var ms := ErrorMembers(e, stack);
    assert IntForce(Get(ms, KeyError).value) == Code(e.errType);
    assert StringOr(Get(ms, KeyOutput), "no details available") == e.message;
    assert StringOr(Get(ms, KeyErrorStack), "no stack trace available") == stack;
    var head := "raised from " + name + ": " + e.message;
    if e.errType == AssertError || debug {
      assert head + "\n" + stack == head + ("\n" + stack);
    } else {
      assert head + "" == head;
    }
  }

  /** Reading the output of an error response raises the server's error, whatever output was expected. */
  lemma ReadOutputOfError(name: string, e: Error, stack: string, required: bool, debug: bool)
    ensures ReadOutput(name, ErrorLine(e, stack), required, debug) == Fail(Raised(name, e, stack, debug))
  {
    ErrorGet(e, stack);
    ProcessErrorOfError(name, e, stack, debug);
  }

  /** An out-of-band line is read as its text; the terminating "." reads as the empty text. */
  lemma ReadLineOfOutOfBand(name: string, text: Option<string>, debug: bool)
    ensures ReadLine(name, OutOfBandLine(text), debug) == Ok(if text.Some? then text.value else "")
  {
    var line := OutOfBandLine(text);
    assert line[0] == '.';
    assert line[1..] == (if text.Some? then text.value else "");
  }

  /** A terminating response where a line was expected is a FormatError. */
  lemma ReadLineOfResponse(name: string, out: Option<Value>, debug: bool)
    requires out != Some(Null)
    ensures ReadLine(name, ResponseLine(out), debug) == Fail(Error(FormatError, "expected error but got output"))
  {
    ResponseGet(out);
    assert ResponseLine(out)[0] == '{';
  }

  /** An error response where a line was expected raises the server's error. */
  lemma ReadLineOfError(name: string, e: Error, stack: string, debug: bool)
    ensures ReadLine(name, ErrorLine(e, stack), debug) == Fail(Raised(name, e, stack, debug))
  {
    ErrorGet(e, stack);
    ProcessErrorOfError(name, e, stack, debug);
    assert ErrorLine(e, stack)[0] == '{';
  }

  lemma GreetingGet(service: string, version: string)
    ensures DecodeLine(GreetingLine(service, version)) == Ok(GreetingMembers(service, version))
    ensures Get(GreetingMembers(service, version), GreetingKeyName) == Some(Str(ProjectName))
    ensures Get(GreetingMembers(service, version), GreetingKeyService) == Some(Str(service))
    ensures Get(GreetingMembers(service, version), GreetingKeyVersion) == Some(Str(version))
  {
    var ms := GreetingMembers(service, version);
    DecodeEncodeLine(ms);
    assert ms[..2][..1] == [ms[0]];
    assert ms[..2] == [ms[0], ms[1]];
    assert GreetingKeyName != GreetingKeyService && GreetingKeyName != GreetingKeyVersion && GreetingKeyService != GreetingKeyVersion;
    assert Get(ms, GreetingKeyName) == Get(ms[..2], GreetingKeyName) == Get(ms[..2][..1], GreetingKeyName);
    assert Get(ms, GreetingKeyService) == Get(ms[..2], GreetingKeyService);
  }

  /**
   * A client accepts a server's greeting, followed by the server's answer to
   * the noop it then sends, exactly when it expects the service and the
   * version the server announces.
   */
  lemma ClientNewOfGreeting(name: string, service: string, version: string, expectService: string, expectVersion: string, debug: bool)
    ensures ClientNew(name, expectService, expectVersion, GreetingLine(service, version), ResponseLine(None), debug).1.Ok?
            <==> expectService == service && expectVersion == version
  {
    GreetingGet(service, version);
    ReadOutputOfResponse(name, None, false, debug);
  }

  /** A service mismatch is reported with both names and the version hint, and no noop is sent. */
  lemma ClientNewServiceMismatch(name: string, service: string, version: string, expectService: string, expectVersion: string, noopReply: string, debug: bool)
    requires expectService != service
    ensures ClientNew(name, expectService, expectVersion, GreetingLine(service, version), noopReply, debug)
            == ([], Fail(Error(ProtocolError, MismatchMessage(GreetingKeyService, expectService, service))))
  {
    GreetingGet(service, version);
    var ms := GreetingMembers(service, version);
    var expected := ExpectedGreeting(expectService, expectVersion);
    assert CheckGreetingKey(ms, expected[0].0, expected[0].1) == None;
    assert CheckGreeting(ms, expected) == CheckGreeting(ms, expected[1..]);
  }

  /**
   * After an accepted greeting, an error answer to the noop fails the
   * creation with the server's error, raised under the client's name.
   */
  lemma ClientNewNoOpError(name: string, service: string, version: string, e: Error, stack: string, debug: bool)
    ensures ClientNew(name, service, version, GreetingLine(service, version), ErrorLine(e, stack), debug)
            == ([CommandJson(Command(CommandNoOp, []))], Fail(Raised(name, e, stack, debug)))
  {
    GreetingGet(service, version);
    ReadOutputOfError(name, e, stack, false, debug);
  }

  /** A no-op against the server's noop answer passes. */
  lemma NoOpOfServer(client: Client, debug: bool)
    ensures NoOp(client, ResponseLine(None), debug).1 == Pass
  {
    ReadOutputOfResponse(client.name, None, false, debug);
  }
}
