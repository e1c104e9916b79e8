// Protocol commands and the wire constants both ends share.

module ProtocolCommand {
  import opened Errors
  import opened Json

  /** The brand both ends announce in the greeting. */
  const ProjectName := "pgBackRest"

  const GreetingKeyName := "name"
  const GreetingKeyService := "service"
  const GreetingKeyVersion := "version"

  const KeyCommand := "cmd"
  const KeyParam := "param"
  const KeyError := "err"
  const KeyErrorStack := "errStack"
  const KeyOutput := "out"

  /** Reserved commands the server answers itself. */
  const CommandExit := "exit"
  const CommandNoOp := "noop"

  /** A command: its name and its parameters in the order they were added. */
  datatype Command = Command(name: string, params: seq<Value>)

  /** The members of a command's request object; "param" only when there are parameters. */
  function CommandMembers(c: Command): (ms: seq<(string, Value)>)
    ensures |ms| >= 1 && ms[0] == (KeyCommand, Str(c.name))
    ensures |c.params| == 0 ==> |ms| == 1
    ensures |c.params| > 0 ==> |ms| == 2 && ms[1] == (KeyParam, Arr(c.params))
  {
    [(KeyCommand, Str(c.name))] + (if |c.params| == 0 then [] else [(KeyParam, Arr(c.params))])
  }

  /** The request line a client writes for a command. */
  function CommandJson(c: Command): (line: string)
    ensures DecodeLine(line) == Ok(CommandMembers(c))
  {
    DecodeEncodeLine(CommandMembers(c));
    EncodeLine(CommandMembers(c))
  }

  /**
   * What the server reads from a request line: the command name and the
   * parameter list, absent when the request has no "param" key.
   */
  function DecodeCommand(line: string): (r: Result<(string, Option<seq<Value>>)>)
    ensures r.Ok? ==> exists ms :: DecodeLine(line) == Ok(ms) && Get(ms, KeyCommand) == Some(Str(r.value.0))
  {
    match DecodeLine(line)
    case Fail(e) => Fail(e)
    case Ok(ms) =>
      match Get(ms, KeyCommand)
      case Some(Str(name)) =>
        (match Get(ms, KeyParam)
         case None => Ok((name, None))
         case Some(Arr(ps)) => Ok((name, Some(ps)))
         case Some(_) => Fail(Error(AssertError, "command key 'param' must be list type")))
      case _ => Fail(Error(AssertError, "command key 'cmd' must be string type"))
  }

  /** A request line decodes to the command's name and parameters; none means absent. */
  lemma DecodeCommandJson(c: Command)
    ensures DecodeCommand(CommandJson(c)) == Ok((c.name, if |c.params| == 0 then None else Some(c.params)))
  {
    var ms := CommandMembers(c);
    DecodeEncodeLine(ms);
    if |c.params| > 0 {
      assert ms[..1] == [(KeyCommand, Str(c.name))];
      assert Get(ms, KeyCommand) == Some(Str(c.name));
      assert Get(ms, KeyParam) == Some(Arr(c.params));
    } else {
      assert Get(ms, KeyCommand) == Some(Str(c.name));
      assert Get(ms, KeyParam) == None;
    }
  }

  /** Two commands with the same request line are the same command. */
  lemma CommandJsonInjective(a: Command, b: Command)
    requires CommandJson(a) == CommandJson(b)
    ensures a == b
  {
    DecodeCommandJson(a);
    DecodeCommandJson(b);
  }

  predicate Plain(s: string) { forall i :: 0 <= i < |s| ==> IsPlain(s[i]) }

  function Quote(s: string): string { "\"" + s + "\"" }

  /**
   * A command with string parameters is the object {"cmd":name,"param":[p1,p2]}:
   * the name first, then the parameters, quoted, in the order they were added.
   */
  lemma CommandJsonWithParams(name: string, p1: string, p2: string)
    requires Plain(name) && Plain(p1) && Plain(p2)
    ensures CommandJson(Command(name, [Str(p1), Str(p2)]))
            == "{" + Quote("cmd") + ":" + Quote(name) + "," + Quote("param") + ":" + "[" + Quote(p1) + "," + Quote(p2) + "]" + "}"
  {
    var c := Command(name, [Str(p1), Str(p2)]);
    var first := (KeyCommand, Str(name));
    var second := (KeyParam, Arr([Str(p1), Str(p2)]));
    assert CommandMembers(c) == [first, second];
    EncodeMembersPair(first, second);
    NameMember(name);
    ParamMember(p1, p2);
    assert CommandJson(c) == "{" + (EncodeMember(first) + "," + EncodeMember(second)) + "}";
    Regroup(Quote("cmd"), Quote(name), Quote("param"), Quote(p1), Quote(p2));
  }

  lemma NameMember(name: string)
    requires Plain(name)
    ensures EncodeMember((KeyCommand, Str(name))) == Quote("cmd") + ":" + Quote(name)
  {
    EncodePlainString("cmd");
    EncodePlainString(name);
  }

  lemma ParamMember(p1: string, p2: string)
    requires Plain(p1) && Plain(p2)
    ensures EncodeMember((KeyParam, Arr([Str(p1), Str(p2)])))
            == Quote("param") + ":" + ("[" + Quote(p1) + "," + Quote(p2) + "]")
  {
    EncodePlainString("param");
    EncodePlainString(p1);
    EncodePlainString(p2);
    EncodeItemsPair(Str(p1), Str(p2));
  }

  lemma Regroup(q1: string, n: string, q2: string, a: string, b: string)
    ensures "{" + q1 + ":" + n + "," + q2 + ":" + "[" + a + "," + b + "]" + "}"
         == "{" + ((q1 + ":" + n) + "," + (q2 + ":" + ("[" + a + "," + b + "]"))) + "}"
  {
  }

  /** Without parameters the "param" key is left out: the object is {"cmd":name}. */
  lemma CommandJsonWithoutParams(name: string)
    requires Plain(name)
    ensures CommandJson(Command(name, [])) == "{" + Quote("cmd") + ":" + Quote(name) + "}"
  {
    EncodePlainString("cmd");
    EncodePlainString(name);
    var c := Command(name, []);
    assert EncodeMembers(CommandMembers(c)) == EncodeMember(CommandMembers(c)[0]);
  }
}
