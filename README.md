# pgBackRest core, modelled in Dafny

This project models seven parts of pgBackRest's core, most of them
sequential, and proves properties of each one:

- **Parallel jobs** (`parallel_job.dfy`). A job is a class with a key and a
  command fixed at construction. Its state moves only from pending to running
  and from running to done, and it records an error code and message or a
  result.
- **Parallel executor** (`parallel.dfy`). The executor keeps one slot per
  worker and pulls jobs from a callback, in worker order.
  - In each pass it collects the replies that are ready, then hands every idle
    worker the next job.
  - Completed jobs are staged in the order they completed and handed out once
    each.
  - Worker replies are given as a map of ready replies per pass, so the timing
    of the forked test processes becomes an ordering of events.
- **Wire protocol** (`json.dfy`, `protocol_command.dfy`, `protocol_client.dfy`,
  `protocol_server.dfy`, `protocol_link.dfy`).
  - Every message is one JSON object per line (RFC 8259, section 4, for
    objects), encoded compactly.
  - The client side covers the command encoding, the greeting check and the
    noop round trip that follows it, and the reading of responses and
    out-of-band lines.
  - The server side covers the greeting, dispatch against a handler table, the
    reserved `noop` and `exit` commands, error responses, and retries driven by
    a list of intervals.
  - `protocol_link.dfy` connects the two sides: every line the server writes is
    read by the client as the server meant it.
- **Async archive-get queue** (`archive_get.dfy`).
  - Covers WAL segment names (24 hex digits), the successor of a segment, and
    ranges of segments.
  - Covers the ideal queue and the segments still to fetch.
  - The spool cleanup is a method that removes files from a spool object.
  - Covers the text of the `.ok`, `.error` and `global.error` status files and
    the logged range.
- **StringList** (`string_list.dfy`). A class whose `items` sequence the
  methods change in place: add, add-if-missing, insert and remove, sort, join
  and a sorted anti-merge.
- **XML child queries** (`xml.dfy`). XML nodes are objects with a sequence of
  children. Counting, indexing and listing the element children with a given
  name walk that sequence with loops. Adding a child or content changes the
  tree.
- **Filter group** (`filter_group.dfy`). An ordered list of filters, with the
  opened/closed life that guards `Done` and `InputSame`. Opening appends a
  buffer filter when the group is empty or its last filter gives no output.
- **Archive info** (`info_archive.dfy`). The names of the `archive.info`
  file and its copy. A recogniser for archive directory names
  (`^[0-9]+(\.[0-9]+)*-[0-9]+$`), proved equal to a reference definition of
  that language.

`common.dfy` holds what the parts share:

- error kinds and their wire codes, a received code keeping its kind;
- `Option` and `Result`;
- decimal text, joining and splitting;
- the byte-wise string order.

## Model

| member | source | states |
|---|---|---|
| ParallelJob.StateNameInjective | src/protocol/parallelJob.h:124 | the names 'pending', 'running' and 'done' tell the three states apart |
| ParallelJob.StateName | src/protocol/parallelJob.h:124 | each state has a non-empty lower-case name; StateNameInjective shows they differ |
| ParallelJob.TransitionsAdvance | src/protocol/parallelJob.h:15-20 | an allowed transition is exactly a move one step forward; none leaves done, returns to pending or stays put |
| ParallelJob.Job.constructor | src/protocol/parallelJob.h:29 | a new job holds its key and command, is pending, has process 0, no error and no result |
| ParallelJob.Job.StateSet | src/protocol/parallelJob.h:100 | pending→running and running→done are taken; any other request raises AssertError "invalid state transition from 'x' to 'y'" and leaves the state; no other field changes |
| ParallelJob.Job.ErrorSet | src/protocol/parallelJob.h:41-42 | a non-zero code and the message are recorded; state, process and result are untouched |
| ParallelJob.Job.ResultSet | src/protocol/parallelJob.h:91 | only the result changes |
| ParallelJob.Job.ProcessIdSet | src/protocol/parallelJob.h:82 | only the process id changes |
| ParallelJob.Lifecycle | test/src/module/protocol/protocolTest.c:779-785 | a new job is taken to done through running, and pending→done, running→pending and done→running are refused with AssertError "invalid state transition from '<from>' to '<to>'" |
| Parallel.JobSource.constructor | test/src/module/protocol/protocolTest.c:113-118 | the callback's data starts with no jobs, index 0 and no client seen |
| Parallel.JobSource.Add | test/src/module/protocol/protocolTest.c:893-908 | a job is appended to the list; the index and the clients seen are kept |
| Parallel.JobSource.Next | test/src/module/protocol/protocolTest.c:120-142 | the worker is marked seen; the next job is handed out and the index advances, or null once the list is exhausted |
| Parallel.Collected | test/src/module/protocol/protocolTest.c:910-954 | the jobs completed in a pass are those of ready workers, in worker order, and only jobs in the slots |
| Parallel.CollectedReady | test/src/module/protocol/protocolTest.c:910-954 | every ready worker's job is among those collected |
| Parallel.CollectedIdle | test/src/module/protocol/protocolTest.c:940-944 | with every worker idle a pass collects nothing and clears nothing |
| Parallel.Cleared | test/src/module/protocol/protocolTest.c:910-954 | after collection exactly the ready workers' slots are empty, the rest unchanged |
| Parallel.Assign | test/src/module/protocol/protocolTest.c:910-922 | dispatch in worker order keeps the slot count and moves the source position forward only |
| Parallel.AssignFills | test/src/module/protocol/protocolTest.c:910-937 | after dispatch a worker is idle only if the source is exhausted; busy workers keep their jobs; new jobs come from the part of the source just taken |
| Parallel.AssignTakes | test/src/module/protocol/protocolTest.c:910-937 | every job taken from the source by a dispatch is in some slot |
| Parallel.AssignExhausted | test/src/module/protocol/protocolTest.c:958-966 | with the source exhausted dispatch changes no slot and sends nothing |
| Parallel.Finish | test/src/module/protocol/protocolTest.c:919-937 | a running job becomes done with the result of a success, or the code and message of a failure and no result |
| Parallel.Launch | test/src/module/protocol/protocolTest.c:920-922 | a pending job runs under the given process id; its outcome fields are untouched |
| Parallel.Executor.constructor | test/src/module/protocol/protocolTest.c:856-857 | a new executor is pending with no workers, no jobs staged and nothing sent |
| Parallel.Executor.ClientAdd | test/src/module/protocol/protocolTest.c:863-891 | a worker with a read channel is added with an idle slot; one without is refused with AssertError "client with read fd is required" and nothing changes |
| Parallel.Executor.JobAdd | test/src/module/protocol/protocolTest.c:893-908 | a job added to the source of an executor that has not started is appended after the others and keeps the executor valid |
| Parallel.Executor.CollectOne | test/src/module/protocol/protocolTest.c:915-937 | the job of one ready worker is recorded, done, and moved from its slot to the end of the staged queue |
| Parallel.Executor.CollectStep | test/src/module/protocol/protocolTest.c:910-954 | worker k is collected exactly when its reply is ready |
| Parallel.Executor.CollectAll | test/src/module/protocol/protocolTest.c:910-954 | collection over every worker stages one job per ready worker and leaves the source alone |
| Parallel.Executor.Collect | test/src/module/protocol/protocolTest.c:910-954 | the slots become Cleared, the staged queue grows by Collected, and each ready job records its worker's outcome |
| Parallel.Executor.DispatchOne | test/src/module/protocol/protocolTest.c:120-142 | an idle worker gets the source's next job and is sent its command, or nothing when the source is exhausted; the worker is marked seen |
| Parallel.Executor.DispatchStep | test/src/module/protocol/protocolTest.c:910-937 | dispatch reaches one more worker, as Assign says |
| Parallel.Executor.DispatchAll | test/src/module/protocol/protocolTest.c:910-937 | dispatch over every worker is Assign over the slots |
| Parallel.Executor.Dispatch | test/src/module/protocol/protocolTest.c:910-937 | slots, source position and commands sent are those of Assign; every idle worker is marked seen |
| Parallel.Executor.Receive | test/src/module/protocol/protocolTest.c:927-937 | each ready reply is read as the terminating response with output required, and the job records that outcome (job3: code 39, "raised from test client 1: very serious error") |
| Parallel.Executor.Advance | test/src/module/protocol/protocolTest.c:910-954 | unless done, the executor is running and the idle workers are given jobs as Assign says |
| Parallel.Executor.Process | test/src/module/protocol/protocolTest.c:910-954 | one pass: replies collected first, then dispatch over the cleared slots; returns the number completed |
| Parallel.Executor.Result | test/src/module/protocol/protocolTest.c:912-937 | hands out the job that completed first and not yet handed out, once, or null when none is staged |
| Parallel.Executor.Done | test/src/module/protocol/protocolTest.c:944-954 | true exactly when nothing is running or staged, and once true it stays true |
| Parallel.AllReported | test/src/module/protocol/protocolTest.c:910-954 | once done with a worker, every job of the source has been handed to the caller, none twice |
| Parallel.CollectedPair | test/src/module/protocol/protocolTest.c:910-954 | with two workers the jobs collected and the slots cleared are those of the ready workers, in order |
| Parallel.FirstPass | test/src/module/protocol/protocolTest.c:910-913 | the first pass completes nothing and gives job1 and job2 to workers 0 and 1 |
| Parallel.SecondPass | test/src/module/protocol/protocolTest.c:915-925 | worker 1's reply completes job2 and that worker gets job3 |
| Parallel.ThirdPass | test/src/module/protocol/protocolTest.c:927-938 | the next reply completes job3 and, with the source exhausted, worker 1 stays idle |
| Parallel.LastPasses | test/src/module/protocol/protocolTest.c:940-954 | a pass without replies completes nothing; worker 0's reply then completes job1 and leaves every worker idle |
| Parallel.ZeroJobs | test/src/module/protocol/protocolTest.c:958-966 | with no jobs and one worker the first pass completes 0 and the executor is done |
| Parallel.OneJobAddedLater | test/src/module/protocol/protocolTest.c:853-908 | an executor and its worker created before its one job was added: valid, pending, idle, with that job next |
| Parallel.JobAddedLater | test/src/module/protocol/protocolTest.c:853-911 | a job added after the executor was created is dispatched to the idle worker by the first pass, which completes nothing and writes the job's command |
| Errors.Code | test/src/module/protocol/protocolTest.c:494 | each error kind travels as one code of the error table (25 to 125); the named kinds own the named codes and the other kinds keep their own code |
| Errors.TypeFromCode | test/src/module/protocol/protocolTest.c:494-498 | a received code of the error table gives a kind with that same code, so the code survives; a code outside the table (255) gives UnknownError |
| Errors.TypeFromCodeOfCode | test/src/module/protocol/protocolTest.c:673-684 | every kind is read back from its own code |
| Errors.CodeInjective | test/src/module/protocol/protocolTest.c:673-684 | distinct kinds have distinct codes |
| Text.NatToDecimal | src/common/type/xml.c:260-261 | the shortest decimal text of a number: digits only, no leading zero |
| Text.DecimalRoundTrip | src/common/type/xml.c:260-261 | the decimal text reads back as the number |
| Text.NatToDecimalInjective | src/common/type/xml.c:260-261 | different numbers have different decimal texts |
| Text.IntToDecimal | test/src/module/protocol/protocolTest.c:498 | signed decimal text is never empty |
| Text.Join | src/common/type/stringList.h:95-99 | joining no items gives "", and one item is that item |
| Text.JoinSnoc | src/common/type/stringList.h:95-99 | one more item appends the separator and the item |
| Text.FirstIndex | src/common/type/stringList.h:117-121 | the index of the first occurrence, or the length when there is none |
| Text.Split | test/src/module/command/archiveGetTest.c:353-356 | the parts between separators, never holding the separator |
| Text.SplitJoin | test/src/module/command/archiveGetTest.c:353-356 | splitting a join on a separator no item holds gives the items back |
| Text.LessIrreflexive | src/common/type/stringList.h:130-134 | the string order is strict |
| Text.LessTransitive | src/common/type/stringList.h:130-134 | the string order is transitive |
| Text.LessTotal | src/common/type/stringList.h:130-134 | any two strings are equal or ordered one way |
| Text.LessAsymmetric | src/common/type/stringList.h:130-134 | no two strings are ordered both ways |
| Json.DecodeLine | test/src/module/protocol/protocolTest.c:544-546 | a line that does not start with '{' after blanks fails with JsonFormatError "expected '{' at '<rest>'" |
| Json.Get | test/src/module/protocol/protocolTest.c:550-552 | a key's value is a member of the object and never null; a key no member has gives none |
| Json.GetLast | test/src/module/protocol/protocolTest.c:550-552 | the last member with the key decides: its value when not null, none when null |
| Json.EncodePlainString | test/src/module/protocol/protocolTest.c:446 | a string of plain characters is encoded as itself between quotes |
| Json.EscapeRoundTrip | test/src/module/protocol/protocolTest.c:446-452 | the escaped text of a string reads back as that string, and reading stops at the closing quote |
| Json.StringRoundTrip | test/src/module/protocol/protocolTest.c:446-452 | an encoded string reads back as itself with what follows left over |
| Json.ParseIntRoundTrip | test/src/module/protocol/protocolTest.c:838 | the decimal text of any integer reads back as that integer |
| Json.ValueRoundTrip | test/src/module/protocol/protocolTest.c:446-452 | parsing the encoding of any value gives the value back and leaves what followed |
| Json.ItemsRoundTrip | test/src/module/protocol/protocolTest.c:446 | an encoded array body reads back as its items, in order |
| Json.MembersRoundTrip | test/src/module/protocol/protocolTest.c:446-452 | an encoded object body reads back as its members, in order |
| Json.ObjectRoundTrip | test/src/module/protocol/protocolTest.c:446-452 | an encoded object reads back as its members |
| Json.DecodeEncodeLine | test/src/module/protocol/protocolTest.c:656-661 | decoding the line of an object gives its members back |
| Json.EncodeInjective | test/src/module/protocol/protocolTest.c:446-452 | distinct values never share an encoding |
| ProtocolCommand.CommandMembers | test/src/module/protocol/protocolTest.c:446-452 | a request holds "cmd" first, then "param" with the parameters only when there are some |
| ProtocolCommand.DecodeCommand | test/src/module/protocol/protocolTest.c:663-671 | a decoded command name is the string under "cmd" of the request object |
| ProtocolCommand.DecodeCommandJson | test/src/module/protocol/protocolTest.c:446-452 | a request line decodes back to the command's name and parameters, with no parameters read as absent |
| ProtocolCommand.CommandJsonInjective | test/src/module/protocol/protocolTest.c:446-452 | two commands with the same request line are the same command |
| ProtocolCommand.CommandJsonWithParams | test/src/module/protocol/protocolTest.c:446 | a command with two parameters is {"cmd":name,"param":[p1,p2]}, parameters in the order added |
| ProtocolCommand.CommandJsonWithoutParams | test/src/module/protocol/protocolTest.c:451 | without parameters the "param" key is left out: {"cmd":name} |
| ProtocolCommand.CommandJson | test/src/module/protocol/protocolTest.c:446-452 | the request line decodes back to the command's members |
| ProtocolClient.CheckGreetingKey | test/src/module/protocol/protocolTest.c:547-563 | a key passes exactly when it holds the expected string. A missing or null key gives "unable to find greeting key", a non-string gives "must be string type", and a wrong value gives the mismatch message with the HINT |
| ProtocolClient.CheckGreeting | test/src/module/protocol/protocolTest.c:544-563 | the greeting passes exactly when every key holds its value; otherwise the fault is that of the first failing key, in the order name, service, version |
| ProtocolClient.ClientNew | test/src/module/protocol/protocolTest.c:470-575 | a client is created exactly when the greeting holds the project name, service and version AND the answer to the noop it then sends carries neither error nor output; the noop request is written exactly after an accepted greeting; a bad greeting fails with the first key fault or its JSON error, a bad noop answer with what NoOp raises |
| ProtocolClient.ProcessError | test/src/module/protocol/protocolTest.c:584-593 | an "err" key raises the kind its code names with "raised from <client>: <out or 'no details available'>", plus the stack (or "no stack trace available") on a new line for AssertError or under debug |
| ProtocolClient.ReadOutput | test/src/module/protocol/protocolTest.c:584-605 | a remote error is raised. Otherwise the "out" value is returned when output is required; when it is not, an output is a fault and its absence is success |
| ProtocolClient.ReadLine | test/src/module/protocol/protocolTest.c:598-631 | the line succeeds exactly when it starts with '.' and yields the rest. "" and any other prefix are FormatErrors with the test's messages. An object raises its remote error, or "expected error but got output" |
| ProtocolClient.NoOp | test/src/module/protocol/protocolTest.c:584-596 | writes {"cmd":"noop"} and passes exactly when the response reads as no output |
| ProtocolClient.IntForce | test/src/module/protocol/protocolTest.c:494-498 | a number is itself, a boolean 1 or 0, anything else 0 |
| ProtocolClient.StringOr | test/src/module/protocol/protocolTest.c:494-498 | a string value is itself; a missing or non-string value gives the fallback ("no details available" / "no stack trace available") |
| ProtocolLink.ResponseGet | test/src/module/protocol/protocolTest.c:659-672 | the server's response line decodes to its members, with "out" as given and no "err" |
| ProtocolLink.ReadOutputOfResponse | test/src/module/protocol/protocolTest.c:595-605 | a response reads as its output when output is required; otherwise an output is AssertError "no output required by command" |
| ProtocolLink.ErrorGet | test/src/module/protocol/protocolTest.c:666-684 | an error line decodes to the error's code, message and stack |
| ProtocolLink.ProcessErrorOfError | test/src/module/protocol/protocolTest.c:584-593 | the client raises a server error with the same kind, its own name and the stack under the AssertError or debug rule |
| ProtocolLink.ReadOutputOfError | test/src/module/protocol/protocolTest.c:584-593 | reading the output of an error line raises the server's error, whatever output was expected |
| ProtocolLink.ReadLineOfOutOfBand | test/src/module/protocol/protocolTest.c:686-690 | an out-of-band line reads back as its text and the lone "." as the empty text |
| ProtocolLink.ReadLineOfResponse | test/src/module/protocol/protocolTest.c:621-625 | a response where a line was expected is "expected error but got output" |
| ProtocolLink.ReadLineOfError | test/src/module/protocol/protocolTest.c:615-619 | an error line where a line was expected raises the server's error |
| ProtocolLink.GreetingGet | test/src/module/protocol/protocolTest.c:653-656 | the server's greeting decodes to the project name, service and version |
| ProtocolLink.ClientNewOfGreeting | test/src/module/protocol/protocolTest.c:484-490 | a client accepts a server's greeting followed by the server's noop answer exactly when it expects that service and version |
| ProtocolLink.ClientNewServiceMismatch | test/src/module/protocol/protocolTest.c:557-559 | a service mismatch fails with both service names and the HINT, and no noop is written |
| ProtocolLink.ClientNewNoOpError | test/src/module/protocol/protocolTest.c:484-498 | after an accepted greeting, an error answer to the noop fails the creation with the server's error raised under the client's name, the noop having been written |
| ProtocolLink.NoOpOfServer | test/src/module/protocol/protocolTest.c:658-661 | a noop against the server's "{}" answer passes |
| ProtocolServer.Lines | test/src/module/protocol/protocolTest.c:686-690 | the messages written become lines one for one, in order |
| ProtocolServer.GreetingLine | test/src/module/protocol/protocolTest.c:653-656 | the greeting line decodes back to the name, service and version members |
| ProtocolServer.ResponseLine | test/src/module/protocol/protocolTest.c:659-672 | a response line decodes back to its "out" member, or to no member |
| ProtocolServer.ErrorLine | test/src/module/protocol/protocolTest.c:666-684 | an error line decodes back to its code, stack and message members |
| ProtocolServer.OutOfBandLine | test/src/module/protocol/protocolTest.c:686-690 | an out-of-band line is "." followed by the text, or the lone "." |
| ProtocolServer.HandleSpec | test/src/module/protocol/protocolTest.c:21-108 | a faulting handler writes nothing, and the retry counter never grows |
| ProtocolServer.TestHandlers.Handle | test/src/module/protocol/protocolTest.c:84-108 | running a test handler writes, faults and counts down exactly as HandleSpec says |
| ProtocolServer.Attempts | test/src/module/protocol/protocolTest.c:745-755 | a handler with n retries left sleeps at most n times |
| ProtocolServer.AttemptsStep | test/src/module/protocol/protocolTest.c:745-755 | one attempt ends the run on success or with no retry left; otherwise it sleeps for the next interval, if it is positive, and retries |
| ProtocolServer.ErrorUntil0Recovers | test/src/module/protocol/protocolTest.c:97-100 | with n faults to go and at least n retries, error-until-0 answers one {"out":true}, sleeps once per positive interval used, and ends with the counter at 0 |
| ProtocolServer.ErrorUntil0Exhausts | test/src/module/protocol/protocolTest.c:97-100 | with fewer retries than faults, its own FormatError "error-until-0" is reported and nothing is written |
| ProtocolServer.AssertNeverRecovers | test/src/module/protocol/protocolTest.c:21-39 | the assert handler faults on every retry and its AssertError "test assert" is reported |
| ProtocolServer.Lookup | test/src/module/protocol/protocolTest.c:732-738 | the index of the first handler registered under a name, or the table size when none is |
| ProtocolServer.TestHandlerLookup | test/src/module/protocol/protocolTest.c:732-738 | the four test handlers sit at 0..3 and every other name is missing |
| ProtocolServer.TestTableAnswers | test/src/module/protocol/protocolTest.c:658-692 | what the server answers each command name with the test table and no retries |
| ProtocolServer.Step | test/src/module/protocol/protocolTest.c:658-694 | serving exit writes nothing, sleeps not at all and keeps the counter |
| ProtocolServer.Dispatch | test/src/module/protocol/protocolTest.c:658-694 | the loop stops exactly on exit when no handler claims it, and then writes nothing |
| ProtocolServer.Serve | test/src/module/protocol/protocolTest.c:740-742 | the loop reads forward only and stops at exit or at the end of input |
| ProtocolServer.ServeStep | test/src/module/protocol/protocolTest.c:740-742 | serving one more line appends its answer and moves on by one line |
| ProtocolServer.ServeDone | test/src/module/protocol/protocolTest.c:740-742 | once stopped, the loop changes nothing |
| ProtocolServer.ServeStopsAtExit | test/src/module/protocol/protocolTest.c:693-695 | the loop stops at or before the first exit and reads no line after it |
| ProtocolServer.ParamFaultAnswered | test/src/module/protocol/protocolTest.c:28-29 | a handler given parameters faults on its assertion, and with no retries that fault is the answer |
| ProtocolServer.HandlerFaultAnswered | test/src/module/protocol/protocolTest.c:672-684 | a fault that survives is answered as an error line, and the loop goes on |
| ProtocolServer.UnknownCommandAnswered | test/src/module/protocol/protocolTest.c:663-671 | an unregistered name other than exit and noop is answered with ProtocolError (39) "invalid command '<name>'" and a stack |
| ProtocolServer.NoOpAnswered | test/src/module/protocol/protocolTest.c:658-661 | noop is answered with {} unless a handler claims the name |
| ProtocolServer.Server.constructor | test/src/module/protocol/protocolTest.c:653-656 | a new server has written its greeting and nothing else |
| ProtocolServer.Server.RunHandler | test/src/module/protocol/protocolTest.c:745-755 | running a registered handler with retries writes, sleeps and counts down as Attempts says |
| ProtocolServer.Server.ProcessLine | test/src/module/protocol/protocolTest.c:658-694 | serving one line writes, sleeps, counts down and stops as Step says |
| ProtocolServer.Server.Process | test/src/module/protocol/protocolTest.c:740-755 | the process loop writes, sleeps and reads as Serve says |
| ProtocolServerSessions.Requests | test/src/module/protocol/protocolTest.c:658-703 | the request lines of commands, one for one |
| ProtocolServerSessions.ServeCommandsStep | test/src/module/protocol/protocolTest.c:658-703 | serving one more decoded command appends its answer and moves on by one |
| ProtocolServerSessions.ServeRequests | test/src/module/protocol/protocolTest.c:658-703 | serving the request lines of commands is serving the commands themselves |
| ProtocolServerSessions.FirstSessionOpening | test/src/module/protocol/protocolTest.c:658-677 | noop answers {}, bogus answers ProtocolError, and request-simple answers {"out":true} |
| ProtocolServerSessions.FirstSessionClosing | test/src/module/protocol/protocolTest.c:679-694 | assert answers its AssertError, request-complex answers {"out":false}, ".LINEOFTEXT" and ".", and exit stops the loop |
| ProtocolServerSessions.FirstSession | test/src/module/protocol/protocolTest.c:653-694 | the first session's seven answers, in order, and the stop at exit |
| ProtocolServerSessions.RetrySession | test/src/module/protocol/protocolTest.c:697-755 | with intervals [0, 50] and two faults to go, the client sees one {"out":true} and no error; the server sleeps once, for 50 |
| ArchiveGet.UpperHexDigit | test/src/module/command/archiveGetTest.c:63-68 | a digit value prints as an upper-case hexadecimal digit |
| ArchiveGet.UpperHexDigitValue | test/src/module/command/archiveGetTest.c:63-68 | a printed digit reads back as its value |
| ArchiveGet.UpperHexValueDigit | test/src/module/command/archiveGetTest.c:63-68 | an upper-case digit prints back as itself |
| ArchiveGet.DigitOf | test/src/module/command/archiveGetTest.c:63-68 | a digit's value is below 16 |
| ArchiveGet.HexNumber | test/src/module/command/archiveGetTest.c:63-68 | w digits read as a number below 16^w |
| ArchiveGet.HexNumberOfDigits | test/src/module/command/archiveGetTest.c:63-68 | the first m printed digits of n read back as n without its lowest digits |
| ArchiveGet.FieldDigit | test/src/module/command/archiveGetTest.c:63-68 | "%08X" prints upper-case digits |
| ArchiveGet.SegmentName | test/src/module/command/archiveGetTest.c:48-57 | a segment's name is 24 hexadecimal digits |
| ArchiveGet.SegmentNameCanonical | test/src/module/command/archiveGetTest.c:48-57 | names are printed in upper case |
| ArchiveGet.ParseSegment | test/src/module/command/archiveGetTest.c:63-68 | a name reads as a segment whose parts fit 32 bits |
| ArchiveGet.PartValue | test/src/module/command/archiveGetTest.c:63-68 | each group of eight digits reads as a 32-bit value |
| ArchiveGet.PartRoundTrip | test/src/module/command/archiveGetTest.c:63-68 | each part of a segment reads back from its eight printed digits |
| ArchiveGet.SegmentRoundTrip | test/src/module/command/archiveGetTest.c:63-68 | a segment survives being named and read back |
| ArchiveGet.SegmentNameRoundTrip | test/src/module/command/archiveGetTest.c:63-68 | an upper-case name survives being read and named again |
| ArchiveGet.DigitRoundTrip | test/src/module/command/archiveGetTest.c:63-68 | each digit of an upper-case name is printed back from the part read from it |
| ArchiveGet.MaxMinor | test/src/module/command/archiveGetTest.c:76-97 | the last segment number of a log of segments of the given size fits 32 bits |
| ArchiveGet.NextSegment | test/src/module/command/archiveGetTest.c:63-97 | the successor stays on the timeline, within the log's segment numbers, and never uses FF before PostgreSQL 9.3 |
| ArchiveGet.NextName | test/src/module/command/archiveGetTest.c:63-97 | the successor of a name is a name |
| ArchiveGet.NextSegmentOfSize | test/src/module/command/archiveGetTest.c:63-97 | the successor computed from the segment size is the one from the size's last segment number |
| ArchiveGet.NextIsSuccessor | test/src/module/command/archiveGetTest.c:76-97 | where nothing is skipped, the successor is the next segment in one count across logs |
| ArchiveGet.MaxMinorBelow | test/src/module/command/archiveGetTest.c:76-97 | any segment size of two bytes or more leaves room for that count |
| ArchiveGet.SkipsSegmentFF | test/src/module/command/archiveGetTest.c:63-68 | before 9.3 with logs of at least FF segments, FE is followed by segment 0 of the next log |
| ArchiveGet.OldVersionsAgreeElsewhere | test/src/module/command/archiveGetTest.c:63-97 | everywhere but at FF the old and the new versions step alike |
| ArchiveGet.MaxMinorExamples | test/src/module/command/archiveGetTest.c:38-39 | 16MB segments give logs up to FF and 1MB segments logs up to FFF |
| ArchiveGet.NextOf16MBBefore93 | test/src/module/command/archiveGetTest.c:63-68 | with 16MB segments before 9.3, 1/FE is followed by 2/00 |
| ArchiveGet.NextOf16MBAfter93 | test/src/module/command/archiveGetTest.c:63-97 | with 16MB segments from 9.3 on, FF is used |
| ArchiveGet.NextOf1MBAfter93 | test/src/module/command/archiveGetTest.c:76-97 | with 1MB segments from 9.3 on, A/FFD, A/FFE, A/FFF are followed by B/000, B/001, B/002 |
| ArchiveGet.NextWrapsLogId | test/src/module/command/archiveGetTest.c:63-97 | the last segment of the last log id wraps to 0/0 |
| ArchiveGet.NextNameOfSegment | test/src/module/command/archiveGetTest.c:63-97 | stepping a name is stepping its segment and naming it |
| ArchiveGet.Range | test/src/module/command/archiveGetTest.c:48-57 | a range has the requested number of names |
| ArchiveGet.NameAfterStep | test/src/module/command/archiveGetTest.c:48-57 | every name after a name is a name, and the next one is its successor |
| ArchiveGet.RangeAt | test/src/module/command/archiveGetTest.c:48-57 | the i-th name of a range is i steps after the first |
| ArchiveGet.RangeSuccessive | test/src/module/command/archiveGetTest.c:48-57 | a range starts at the first name and each name is the successor of the one before |
| ArchiveGet.Iterate | test/src/module/command/archiveGetTest.c:76-97 | stepping n times keeps a valid segment |
| ArchiveGet.NameAfterIsSegment | test/src/module/command/archiveGetTest.c:76-97 | past the first, a range's names are the upper-case names of the segments that follow |
| ArchiveGet.SegmentRange | test/src/module/command/archiveGetTest.c:48-57 | the method's loop builds exactly Range |
| ArchiveGet.QueueTotal | test/src/module/command/archiveGetTest.c:38-57 | the queue holds queue size over segment size, never fewer than 2 |
| ArchiveGet.QueueTotalExamples | test/src/module/command/archiveGetTest.c:38-57 | 16MB/16MB gives 2, 48MB/16MB gives 3, 5MB/1MB gives 5 |
| ArchiveGet.IdealQueue | test/src/module/command/archiveGetTest.c:48-57 | the ideal queue has QueueTotal names and starts at the requested segment when it was not found, else at its successor |
| ArchiveGet.Spool.constructor | test/src/module/command/archiveGetTest.c:62-63 | a spool holds the given files |
| ArchiveGet.Spool.List | test/src/module/command/archiveGetTest.c:70-71 | listing gives each file once |
| ArchiveGet.Spool.Remove | test/src/module/command/archiveGetTest.c:70-71 | removing a file removes it and nothing else |
| ArchiveGet.ProperPrefixLess | test/src/module/command/archiveGetTest.c:79-101 | a name sorts before itself with more appended |
| ArchiveGet.StemSeenFirst | test/src/module/command/archiveGetTest.c:79-101 | in a sorted listing an .ok file's segment, if present, comes before it |
| ArchiveGet.CleanupStep | test/src/module/command/archiveGetTest.c:79-101 | each listed file stays exactly when the spool keeps it |
| ArchiveGet.SamePermutationMembers | test/src/module/command/archiveGetTest.c:70-101 | sorting a listing keeps its files |
| ArchiveGet.CleanSpool | test/src/module/command/archiveGetTest.c:79-101 | the spool keeps exactly the Kept files: queued segments that are present and their .ok files. Junk, .ok files outside the queue, empty .ok files of absent segments and segments outside the queue go |
| ArchiveGet.Needed | test/src/module/command/archiveGetTest.c:63-97 | the segments still to fetch are the queue minus those kept, in queue order |
| ArchiveGet.Reconcile | test/src/module/command/archiveGetTest.c:63-101 | the result is the queue minus the spool's files, in queue order, and the spool keeps the Kept files |
| ArchiveGet.QueueNeed | test/src/module/command/archiveGetTest.c:38-101 | the segments to fetch are the ideal queue minus the spool, ascending in queue order; the spool keeps exactly the Kept files |
| ArchiveGet.ReadCodeLine | test/src/module/command/archiveGetTest.c:126-141 | a status text reads back as its code line and the rest |
| ArchiveGet.ErrorTextRoundTrip | test/src/module/command/archiveGetTest.c:405-412 | an .error file reads back as its code and its message followed by the warnings |
| ArchiveGet.OkTextRoundTrip | test/src/module/command/archiveGetTest.c:264-269 | an .ok file is empty exactly without warnings; otherwise it reads back as code 0 and warnings that split back into the list |
| ArchiveGet.StatusFileKinds | test/src/module/command/archiveGetTest.c:164-168 | a segment found without warnings gets no file. Otherwise an .ok file is left when it was found or not found, and an .error file when it failed. A segment not found without warnings gets an empty .ok |
| ArchiveGet.OkText | test/src/module/command/archiveGetTest.c:264-269 | an .ok text is empty exactly without warnings, and starts with the code line 0 otherwise |
| ArchiveGet.ErrorText | test/src/module/command/archiveGetTest.c:405-412 | an .error text starts with the code in decimal on its own line |
| ArchiveGet.StatusFile | test/src/module/command/archiveGetTest.c:164-168 | no file exactly for a segment found without warnings; otherwise .error for a failure and .ok else |
| ArchiveGet.GlobalErrorExamples | test/src/module/command/archiveGetTest.c:124-141 | host errors write "72\n<message>" and invalid parameters "96\n<message>" to global.error |
| ArchiveGet.GlobalErrorText | test/src/module/command/archiveGetTest.c:124-141 | global.error holds the code line then the message |
| ArchiveGet.GlobalErrorFile | test/src/module/command/archiveGetTest.c:124-141 | global.error holds the error's code line then its message |
| ArchiveGet.LogRangeRecovers | test/src/module/command/archiveGetTest.c:348 | the logged range is the only name or "first...last", and gives back both ends |
| ArchiveGet.LogRange | test/src/module/command/archiveGetTest.c:348 | the logged range starts with the first name and ends with the last |
| StringLists.StringList.constructor | src/common/type/stringList.h:21-25 | a new list is empty |
| StringLists.StringList.Dup | src/common/type/stringList.h:40 | a duplicate holds the same items in the same order |
| StringLists.StringList.Empty | src/common/type/stringList.h:60-64 | the list is empty exactly when its size is 0 |
| StringLists.StringList.Get | src/common/type/stringList.h:85-89 | an index below the size gives that item; any other is an AssertError naming the index and the size |
| StringLists.StringList.Add | src/common/type/stringList.h:70 | the item is appended, the size grows by one and the earlier items are kept |
| StringLists.StringList.AddIfMissing | src/common/type/stringList.h:72 | an item already there changes nothing; otherwise it is appended; either way it is then there |
| StringLists.StringList.Insert | src/common/type/stringList.h:82 | the item lands at the index and later items shift right |
| StringLists.StringList.RemoveIdx | src/common/type/stringList.h:123-127 | exactly the item at the index is deleted |
| StringLists.StringList.Remove | src/common/type/stringList.h:117-121 | reports whether an equal item was there; if so its first copy is removed, otherwise nothing changes |
| StringLists.StringList.Sort | src/common/type/stringList.h:130-134 | the items become a sorted permutation of the old ones; no order and a sorted list change nothing |
| StringLists.StringList.JoinQuote | src/common/type/stringList.h:92 | each item between quotes, with the separator between items |
| StringLists.StringList.Join | src/common/type/stringList.h:95-99 | the items with the separator between them: the quoted join with the empty quote |
| StringLists.StringList.MergeAnti | src/common/type/stringList.h:101-103 | for sorted inputs, exactly the items of this list that anti does not hold, in order |
| StringLists.InOrderTotal | src/common/type/stringList.h:130-134 | any two strings can be put in the sort order one way or the other |
| StringLists.InOrderTransitive | src/common/type/stringList.h:130-134 | the sort order is transitive |
| StringLists.InsertRemoveRoundTrip | src/common/type/stringList.h:82-127 | removing at the index of an insert gives the list back; the insert adds one copy of the item |
| StringLists.MembersSnoc | src/common/type/stringList.h:70 | appending an item adds it to the list's members |
| StringLists.WithoutMembers | src/common/type/stringList.h:101-103 | an item is kept exactly when a holds it and b does not |
| StringLists.WithoutSameOn | src/common/type/stringList.h:101-103 | only the membership of a's own items decides the anti-merge |
| StringLists.WithoutSnoc | src/common/type/stringList.h:101-103 | the anti-merge of a longer list extends that of the shorter |
| StringLists.QuotedEmpty | src/common/type/stringList.h:95-99 | quoting with the empty quote changes nothing |
| StringLists.QuotedLength | src/common/type/stringList.h:92 | quoting keeps the number of items |
| StringLists.InsertOrderedPermutation | src/common/type/stringList.h:130-134 | an ordered insert adds exactly one copy of the item |
| StringLists.InsertOrderedSorted | src/common/type/stringList.h:130-134 | an ordered insert keeps a sorted list sorted |
| StringLists.SortSeqSorted | src/common/type/stringList.h:130-134 | sorting gives a sorted permutation |
| StringLists.SortSeqIdempotent | src/common/type/stringList.h:130-134 | sorting a sorted list changes nothing |
| StringLists.AbsentBetween | src/common/type/stringList.h:101-103 | an item that falls between two neighbours of a sorted anti list is not in it |
| StringLists.FirstIndexUnique | src/common/type/stringList.h:117-121 | the first index of x is the one index before which no item equals x |
| Xml.Matching | src/common/type/xml.c:267-285 | the matching children are never more than the children |
| Xml.MatchingSnoc | src/common/type/xml.c:208-228 | one more child adds it to the matches exactly when it matches |
| Xml.MatchingAppend | src/common/type/xml.c:208-228 | the matches of two runs of children are the matches of each, in order |
| Xml.MatchingMembers | src/common/type/xml.c:208-228 | a node is a match exactly when it is a child that is an element of that name |
| Xml.MatchingPrefix | src/common/type/xml.c:231-258 | the matches among the first k children are the first matches of all of them |
| Xml.OnlyElementsMatch | src/common/type/xml.c:267-285 | text and other nodes never count, whatever their name |
| Xml.AddedChildCounts | src/common/type/xml.c:106-121 | an added element child adds one to its name's count, is the last match, and leaves other names alone |
| Xml.TextContentSnoc | src/common/type/xml.c:191-205 | one more text child appends its text to the content |
| Xml.XmlNode.Element | src/common/type/xml.c:106-121 | a new element has its name, no children and no attributes |
| Xml.XmlNode.NewText | src/common/type/xml.c:191-205 | a new text node holds its content |
| Xml.XmlNode.Parsed | src/common/type/xml.c:87-100 | a node as a parsed document holds it |
| Xml.XmlNode.Add | src/common/type/xml.c:106-121 | a fresh element child of that name is appended, and the other children are kept |
| Xml.XmlNode.ContentSet | src/common/type/xml.c:191-205 | a fresh text child holding the content is appended, and the other children are kept |
| Xml.XmlNode.Attribute | src/common/type/xml.c:148-169 | an attribute's value when present, none when absent |
| Xml.XmlNode.ChildTotal | src/common/type/xml.c:267-285 | the count of element children with that name |
| Xml.XmlNode.ChildList | src/common/type/xml.c:208-228 | exactly the element children with that name, in document order |
| Xml.XmlNode.ChildN | src/common/type/xml.c:231-264 | the index-th match when there is one. Past the last, none, or FormatError "unable to find child '<name>':<index> in node '<parent>'" when the caller asks |
| Xml.Content | src/common/type/xml.c:172-189 | none exactly for no node; for a node other than a text node, the text of its text children |
| Xml.ContentSetAppends | src/common/type/xml.c:191-205 | setting content appends its text and changes no child count |
| Xml.ListingChildren | src/common/type/xml.c:208-285 | in [Contents, Prefix, Contents, text] the matches of "Contents" are the first and the third, and the content is the text |
| Xml.Listing | src/common/type/xml.c:106-121 | building that node by Add and ContentSet gives those children |
| Xml.ListingQueries | src/common/type/xml.c:231-285 | on it a total of 2, index 1 found, index 2 a FormatError or none, and the content "abc" |
| FilterGroup.FilterInsert | src/common/io/filter/group.h:83-84 | the filter lands before the index, earlier ones stay, later ones shift right |
| FilterGroup.InsertAtEndIsAdd | src/common/io/filter/group.h:80-84 | inserting before the end is adding at the end |
| FilterGroup.InsertAtStartIsFirst | src/common/io/filter/group.h:83-84 | inserting before index 0 puts the filter first |
| FilterGroup.OpenedFilters | src/common/io/filter/group.h:89-90 | opening keeps the filters as a prefix and appends the buffer filter exactly when the group is empty or its last filter produces no output, so the last filter always produces output |
| FilterGroup.OpenedFiltersIdempotent | src/common/io/filter/group.h:89-90 | opening an opened list adds nothing more |
| FilterGroup.IoFilterGroup.constructor | src/common/io/filter/group.h:25 | a new group has no filters, is not opened, closed or done, and has no results |
| FilterGroup.IoFilterGroup.Size | src/common/io/filter/group.h:71-75 | the size is the number of filters |
| FilterGroup.IoFilterGroup.Done | src/common/io/filter/group.h:43-49 | only between opening and closing: the done flag the last pass reported |
| FilterGroup.IoFilterGroup.InputSame | src/common/io/filter/group.h:51-58 | only between opening and closing: whether the last pass asked for the same input again |
| FilterGroup.IoFilterGroup.Add | src/common/io/filter/group.h:80-81 | the filter is appended, after every filter already there; nothing else changes |
| FilterGroup.IoFilterGroup.Insert | src/common/io/filter/group.h:83-84 | the filter lands before the index; nothing else changes |
| FilterGroup.IoFilterGroup.Clear | src/common/io/filter/group.h:86-87 | the list becomes empty; nothing else changes |
| FilterGroup.IoFilterGroup.Open | src/common/io/filter/group.h:89-90 | a group being built becomes open, not done, and wanting no input again; its filters become OpenedFilters of the old ones |
| FilterGroup.IoFilterGroup.Process | src/common/io/filter/group.h:92-93 | an open group stays open, and Done and InputSame report what the filters reported |
| FilterGroup.IoFilterGroup.Close | src/common/io/filter/group.h:95-96 | an open group becomes closed and holds the results gathered, each for a filter type the group holds |
| FilterGroup.IoFilterGroup.ResultOf | src/common/io/filter/group.h:63-64 | after closing, a filter type's result when it produced one, none otherwise |
| FilterGroup.Lifecycle | src/common/io/filter/group.h:4-8 | filters stay in the order added, an insert before 0 comes first, opening appends the buffer filter exactly when the last filter gives no output, processing runs until done, and after close the result is found by its filter's type and no other |
| InfoArchive.InfoArchivePathFile | src/info/infoArchive.h:24 | the archive path followed by "/archive.info" |
| InfoArchive.InfoArchivePathFileCopy | src/info/infoArchive.h:26 | the archive path followed by "/archive.info.copy" |
| InfoArchive.InfoPathsDistinct | src/info/infoArchive.h:21-27 | the copy is the info file plus ".copy", never the same file, and different archive paths give different info files |
| InfoArchive.InfoPathsOfStanza | test/src/module/command/archiveGetTest.c:613-615 | for stanza test1 the two files are <repo>/archive/test1/archive.info and its .copy |
| InfoArchive.VersionSnoc | src/info/infoArchive.h:22 | a version grows by a digit after a version, after a dot that follows a version, or from nothing |
| InfoArchive.VersionNoDash | src/info/infoArchive.h:22 | a version holds no dash |
| InfoArchive.DbVersionSnoc | src/info/infoArchive.h:22 | a name grows by a digit after a name or after a dash that follows a version |
| InfoArchive.ScanMeaning | src/info/infoArchive.h:22 | each state of the matcher means exactly what has been read: nothing, a version, a version and a dot, a version and a dash, or a whole name |
| InfoArchive.MatcherIsPattern | src/info/infoArchive.h:22 | the matcher accepts exactly the names that are 1+ digits, then groups of '.' and 1+ digits, then '-' and 1+ digits |
| InfoArchive.IsArchiveDbVersion | src/info/infoArchive.h:22 | an accepted name is non-empty and ends in a digit; MatcherIsPattern gives the whole language |
| InfoArchive.DashUnique | src/info/infoArchive.h:22 | a name has one dash only, so its version and history id are unique |
| InfoArchive.AcceptsVersionAndId | src/info/infoArchive.h:22 | every version, a dash and digits make an accepted name |
| InfoArchive.RejectsWithoutDash | src/info/infoArchive.h:22 | the empty string and every string without a dash are rejected |
| InfoArchive.SplitAtVersion | src/info/infoArchive.h:22 | an accepted v + "-" + id with no dash in v has v a version and id digits |
| InfoArchive.RejectsBadVersion | src/info/infoArchive.h:22 | an empty version, or one with a leading, trailing or doubled dot, is rejected |
| InfoArchive.RejectsBadId | src/info/infoArchive.h:22 | an empty history id, or one holding a non-digit or another dash, is rejected |
| InfoArchive.DbVersionExamples | test/src/module/command/archiveGetTest.c:250-254 | "10-1", "10-2" and "9.4-2" are accepted. "", "10", ".10-1", "10.-1", "9..4-1", "10-1a", "10-1-2" and "10-" are rejected |

## Left out

- Transport: file descriptors, pipes, read timeouts and select waiting. The
  executor's timeout is a field with no effect, and replies per pass come in
  as a parameter.
- Timing: `sleepMSec`. The server's retries return the sleeps they would take
  instead of sleeping.
- The fork harness of the tests. The model's scenarios replay the tests'
  orders of events.
- Remote and local plumbing: `protocolLocalParam`, `protocolRemoteParam` and
  the client caches, which spawn processes from configuration.
- Locking (`lockTest.c`): it rests on operating-system file locks across
  processes.
- `protocolParallelToLog`, the `ToLog` functions and memory-context moves and
  frees: logging and housekeeping.
- `parallel.c`, `client.c`, `server.c`, `stringList.c`, `list.c`, `group.c`,
  `infoArchive.c` and the WAL segment code are not part of this model. Their
  behaviour comes from the headers and from what the tests pin.
- Parallel.Executor.ClientAdd: the worker's slot is allocated when it is
  added, not on the first pass. Nothing a caller sees differs.
- Parallel.Executor.Process: within a pass, collection comes before dispatch.
  The test at `protocolTest.c:910-925` pins this order: the first pass
  completes nothing, and job2's reply is counted in the second pass. The C
  code's own order is not part of this model.
- ProtocolClient.ReadOutput: a response without `out`, read with output
  required, gives no value; no test pins this case.
- ProtocolClient.IntForce and StringOr: an "err" value that is not a number
  reads as code 0, and a non-string "out" or "errStack" as the default text.
  The variant conversions of the source are not part of this model.
- Errors.TypeFromCode: every code from 25 to 125 counts as a kind of the
  error table. The table itself is not part of this model, so a code in a
  gap of the table keeps its code instead of becoming UnknownError. Only the
  kinds whose codes the tests pin have names; FileMissingError,
  PathMissingError and the rest are OtherError with their code.
- StringLists.StringList.Insert: requires an index no greater than the size.
  Past the end is an assertion in the list code, which is not part of this
  model.
- StringLists.StringList.RemoveIdx: requires an index below the size, for the
  same reason.
- StringLists.StringList.Sort: specified as a sorted permutation. The method
  sorts by insertion, with custom comparators left out; the source uses
  `qsort`, which is not stable, so the order of equal items may differ.
- StringLists.StringList.Size and Exists: plain queries over `items` with no
  contract of their own. Empty and Get carry the properties.
- StringLists: `strLstNewSplit`, `strLstNewVarLst`, `strLstPtr` and
  `strLstComparatorSet` are left out: conversions and comparators outside the
  operations modelled.
- ArchiveGet.DigitOf: a character that is not a hexadecimal digit counts as 0.
  Names are checked to be hex digits before they are read.
- ArchiveGet.Range: what is not a segment name is left alone by the successor
  function.
- ArchiveGet.NextIsSuccessor: stated only where no segment is skipped and the
  log id does not wrap. The other cases are separate lemmas (SkipsSegmentFF,
  NextWrapsLogId).
- The repository search is left out, along with compression and encryption,
  pg_control reading, and storage errors such as the missing spool path
  (PathMissingError at `archiveGetTest.c:41-43`). `cmdArchiveGetAsync` is
  modelled only through the status files it writes and the log range.
- Xml.Content: for an element, it is the text of its direct text children.
  libxml's `xmlNodeGetContent` also takes the text of nested elements.
- libxml-backed parts of `xml.c`: `xmlDocumentNewBuf`, `xmlDocumentBuf` and
  `xmlInit`, which are parsing, serialisation and library setup.
- FilterGroup.IoFilterGroup.Process: the data a filter makes of its input
  depends on filter implementations that are not part of this model. The
  filters' done and input-same reports are parameters.
- FilterGroup.IoFilterGroup.Close: the results the filters produce are given
  as a parameter, each for a type of a filter in the group.
- FilterGroup.IoFilterGroup.Open: the buffer filter is seen only by its type
  and its output flag, and opening the filters themselves is not modelled.
  The buffer rule is that of pgBackRest's `ioFilterGroupOpen`, whose body
  (`group.c`) is not part of this model.
- `ioFilterGroupParamAll`, `ioFilterGroupResultAll` and
  `ioFilterGroupResultAllSet` are left out: they serialise filters to variants
  for remote use.
- FilterGroup.IoFilterGroup.Open, Process, Close, Done, InputSame and ResultOf:
  the opened/closed guards are checked only in debug builds of the source. Here
  they are preconditions.
- InfoArchive.InfoArchivePathFile: the storage's archive path
  (`STORAGE_REPO_ARCHIVE`, the stanza's archive directory) is a parameter.
- `infoArchiveLoadFile` and `infoArchiveSaveFile` are left out: file I/O. So
  are `infoArchiveNew` and the `infoArchiveIdHistoryMatch` body, whose code is
  not part of this model.
- JSON: only the shapes the protocol uses are modelled: objects, arrays,
  strings, integers, booleans and null. Non-integer numbers are not.
