# scriptor, verified models

scriptor is a log server. Clients connect over sockets and send JSON messages; each
connection cuts its byte stream into messages, turns each message into a log element, and
pushes the elements to every logger; each logger has a worker thread that filters by level and
writes to its sink. The command line is read by the bundled option parser `popl`. This project
models both and proves what they are for. `dafny verify dfyconfig.toml` checks all of it.

## The log pipeline

- `elements.dfy`, `framing.dfy`: log elements, and framing as a one-byte-at-a-time automaton with
  two states (seeking an opening brace, inside a message).
- `session.dfy`: `Processor`, the class with the mutable buffer and the rescanning, erasing loop.
- `logger_machine.dfy`: the queue, mutex, condition variable, worker and destructor of one logger as
  a step system. Every lock, insert, notify, unlock, wait, swap, sink call and flush is a step; a
  run is any interleaving of enabled steps, with any number of pushing threads, spurious wakeups,
  and sink calls that throw before or after writing.
- `logger.dfy`: the statements of one thread on a logger and its sink, as class methods.
- `pipeline.dfy`: sessions, I/O threads, fan-out, loggers (each one the machine above) and the
  teardown of the server composed into one step system. Elements carry the number of the session
  they came from, so that statements about what a sink received can be made per session.
- `server.dfy`: the loops of the server (thread start, shutdown, accept, fan-out) and the read
  handler, as class methods.
- `accepting.dfy`: accept handlers running on several threads, each re-arming every acceptor.

Parsing a frame as JSON is a parameter, a total function from the frame to level and message or to
the text of the exception. Times are not part of an element.

## The option parser

- `popl.dfy`: options and parser as values, with the program's variables as a memory from addresses
  to values, so that options may share a variable.
- `command_line.dfy`: the scan of the arguments, specified in two phases that the program does not
  have. The arguments are cut into events, which depends on the configurations of the options
  only, and the events are executed. The ledger of a scan follows from the two.
- `scan_laws.dfy`: composition of scans, the standalone `--`, bound variables.
- `round_trip.dfy`: rendered command lines are read back.
- `recognition.dfy`: what any token that begins with a dash sets, and when it is unknown.
- `values.dfy`: what an option makes of its text, what a whole command line adds to an option, and
  what a scan that throws has done.
- `ini.dfy`: the ini reader and its round trip.
- `bindings.dfy`: adding options, and bound variables over every sequence of operations.
- `option_parser.dfy`: the classes, which update their fields and the variables in place. Each method
  is proved against the functions above.

How a template argument `T` reads its text is a parameter of each option (`std::string` and `bool` are
written out). Exceptions are results that carry the state reached.

## Where code and documentation differ

The models follow the code.

- README.md:81-82 says that a log must start with `{` and end with `}`. The framer does not know JSON
  strings, so a `}` inside a string ends the message, although section 7 of RFC 8259 allows it there
  unescaped. `RoundTripExactlyWhen` gives the exact condition.
- src/popl.hpp:362 says that everything behind `--` is a non-option argument. The code records the
  rest of the line and then goes on scanning it. `RestTakenOnceExactlyWhen` says when this makes no
  difference, `MultiplicityOfArguments` how often each argument is recorded.

## What the code does that a caller may not expect

- src/server.cpp:136-160 arms every acceptor on each completed accept, so with two acceptors the
  accepts in flight grow by one with each connection (`AcceptAccounting`, `EveryCountIsReached`).
- src/popl.hpp:859-868 constructs an option, which writes its default to the bound variable, before
  it rejects a duplicate name. `RejectedAddBindsExactlyWhen` says when the binding of the option that
  owns the variable survives, `RejectedAddChangesNothingExactlyWhen` when nothing changes at all, and
  `BindingInvariant` that such an `add` is the only operation that can break an unshared binding.
- src/popl.hpp:900-906 compares names without regard to empty ones, so `--=value` is taken by the first
  option that has no long name (`EmptyNameIsFound`).
- src/server.cpp:133-175 and src/logger.cpp:53-60: the teardown of the server ends, but a spurious
  wakeup of a worker can delay it by up to three steps (`BoundedTeardown`).

## Model

| member | source | states |
|---|---|---|
| `Framing.RenderedMessagesComeBack` | src/session.cpp:20-53 | any messages with any junk between them, followed by any incomplete rest, are cut out exactly, and exactly the rest stays buffered |
| `Framing.UniqueSplit` | src/session.cpp:20-53 | every byte string has exactly one split into junk, messages and an incomplete rest, and it is the one computed |
| `Framing.RoundTripExactlyWhen` | src/session.cpp:23-29 | rendered messages come back if and only if no junk holds an opening and no body a closing brace |
| `Framing.ClosingBraceInStringBreaksMessage` | src/session.cpp:26-33 | a message with a closing brace inside a JSON string comes back cut short |
| `Framing.Rescan` | src/session.cpp:20-47 | searching the kept bytes again from their beginning gives the same as never having stopped |
| `Framing.ChunkInvariance` | src/session.cpp:17-55 | for every split of a stream into chunks, messages and final buffer are those of one call on the whole stream |
| `Framing.MessagesAreBraced` | src/session.cpp:23-33 | a message lies between `{` and `}`, no `{` is in the junk before it and no `}` in its body |
| `Framing.MessagesBecomeElements` | src/session.cpp:30-45 | each message becomes one element, in order: what it parses to, or a critical element with the text of the exception |
| `Session.Processor.FindOne` | src/session.cpp:22-47 | either no message is complete and the buffer is unchanged, or one complete message with its junk leaves the buffer and its element is returned |
| `Session.Processor.Process` | src/session.cpp:17-55 | the loop returns exactly the elements by which the stream's messages have grown, and keeps exactly the automaton's buffer |
| `LoggerMachine.OwnershipKept` | src/logger.cpp:14-60 | the mutex is owned by exactly the thread that is between locking and unlocking |
| `LoggerMachine.NoLostWakeupKept` | src/logger.cpp:14-60 | each step keeps: a sleeping worker has nothing to do or is owed a notification |
| `LoggerMachine.ConservedKept` | src/logger.cpp:24-60 | each step keeps: pushed elements are finished batches, current batch and queue, in that order |
| `LoggerMachine.WrittenKept` | src/logger.cpp:61-91 | each step keeps: the log is what the finished batches and the processed part of the current one left there |
| `LoggerMachine.FlushedKept` | src/logger.cpp:53-80 | each step keeps: the flush mark lags by exactly the unflushed elements |
| `LoggerMachine.Safety` | src/logger.cpp:14-92 | the whole invariant holds after every run, whatever the interleaving |
| `LoggerMachine.NoWakeupIsLost` | src/logger.cpp:14-59 | a worker asleep although there is work or it is done is about to be notified by a thread that can take its next step |
| `LoggerMachine.NeverStuck` | src/logger.cpp:14-92 | in every reachable state the worker has ended, sleeps with nothing to do, or it, the owner of the mutex or an owed notification can take a step |
| `LoggerMachine.QueueIsLogged` | src/logger.cpp:24-81 | until the destructor takes the mutex, every run can be continued, without new pushes and faults, until the worker sleeps and the log has grown by exactly the filtered rest of batch, queue and the push under way |
| `LoggerMachine.Conservation` | src/logger.cpp:24-60 | nothing pushed is lost, duplicated or reordered before the worker; what is dropped at exit is exactly the queue |
| `LoggerMachine.LossIsTheEndOfABatch` | src/logger.cpp:61-90 | in every run, what a batch has lost to a throwing sink call is its end, from the throwing element on |
| `LoggerMachine.LogIsOrderedImage` | src/logger.cpp:61-91 | the log is an order-preserving subsequence of the filtered processed elements, and all of them without faults |
| `LoggerMachine.FlushDiscipline` | src/logger.cpp:53-81 | at the wait without earlier aborts, and at exit always, everything logged is flushed |
| `LoggerMachine.BoundedShutdown` | src/logger.cpp:14-81 | once done is set the worker takes a bounded number of steps and no further element off the queue, whatever is pushed |
| `LoggerMachine.OwnerCanGoOn` | src/logger.cpp:14-60 | the owner of the mutex can always take its next step |
| `LoggerMachine.JoinMakesProgress` | src/logger.cpp:14-60 | after the destructor's notification the worker, or a pusher that owns the mutex, can always take a step |
| `LoggerMachine.StepWork` | src/logger.cpp:14-92 | every step of worker and destructor, except a spurious wakeup, makes the work left smaller; pushes and spurious wakeups add a stated amount |
| `Logger.Sink.Log` | src/logger.cpp:70-75 | a sink call appends its element, or throws before or after doing so, as this call of the sink does |
| `Logger.Logger.PushCopy` | src/logger.cpp:24-31 | the batch is appended to the queue under the mutex, and the notification is sent before it is released |
| `Logger.Logger.PushMove` | src/logger.cpp:33-43 | moving the elements one by one appends the batch to the queue, under the mutex and with one notification |
| `Logger.Logger.Destroy` | src/logger.cpp:14-22 | done is set under the mutex, the notification is sent after it is released, and the worker is joined last |
| `Logger.Logger.Drain` | src/logger.cpp:61-90 | the fault returned is the one the calls of the sink explain; the log grows by exactly what a batch with this fault leaves; a flush covers everything if something was logged and nothing threw |
| `Logger.OnlyOneExplanation` | src/logger.cpp:61-90 | the calls of the sink determine the fault: none if and only if all return, otherwise that of the first call that throws |
| `Logger.Logger.Round` | src/logger.cpp:48-91 | it sleeps exactly if there is nothing to do, leaves exactly if done, after a flush and dropping the queue, and otherwise takes the whole queue and drains it with the mutex released |
| `Pipeline.LoggersKept` | src/logger.cpp:14-92 | every step of the whole system is a step of the protocol for each logger |
| `Pipeline.FanOutKept` | src/server.cpp:144-156 | each step keeps the fan-out invariant of every session and logger |
| `Pipeline.PhaseKept` | src/server.cpp:164-175 | each step keeps the order of the teardown |
| `Pipeline.Safety` | src/server.cpp:124-175 | the invariant of the whole pipeline holds after every run |
| `Pipeline.FanOutAgreement` | src/server.cpp:144-156 | a logger has been pushed, per session, exactly what the session emitted, minus the batch in fan-out that has not reached it |
| `Pipeline.LoggersAgree` | src/server.cpp:144-156 | with no fan-out in progress all loggers have been pushed the same elements equally often |
| `Pipeline.EmittedIsPartitioned` | src/session.cpp:65-81 | what a session emitted lies without gaps or overlaps in the processed part, the batch and the queue of a logger and the session's fan-out |
| `Pipeline.EndToEnd` | src/session.cpp:65-81 | what a sink logged of a session is the ordered, level-filtered image of a prefix of the messages in the bytes received, complete if no sink call threw |
| `Pipeline.DeliveryEndsExactlyWhen` | src/server.cpp:133-162 | while the server is up no progress step is left if and only if every fan-out is complete and every worker sleeps with an empty queue |
| `Pipeline.RestIsComplete` | src/session.cpp:65-81 | at rest the log of a sink that never threw is, per session, the level-filtered image of all messages received |
| `Pipeline.RestCounts` | src/logger.cpp:63-76 | at rest each element has been logged as often as it was sent if its level is at least the sink's, and otherwise never |
| `Pipeline.BoundedWork` | src/logger.cpp:24-92 | without new work a run takes at most as many progress steps as there is work left, plus three for each spurious wakeup |
| `Pipeline.ComesToRest` | src/server.cpp:133-162 | while the server is up, every run can be continued to rest, without new work and faults |
| `Pipeline.StreamCanBeLogged` | src/session.cpp:65-81 | from every reachable state, for any bytes an open session sends and any chunks, there is a continuation after which every sink has logged exactly the session's messages that reach its level |
| `Pipeline.EveryStreamIsLogged` | src/session.cpp:65-81 | the first client of a new server can have any bytes, in any chunks, logged completely by every sink |
| `Pipeline.ErrorEndsSession` | src/session.cpp:72-81 | after a failed read nothing is received for the session and no handler runs for it |
| `Pipeline.NoPushAfterDone` | src/server.cpp:124-131 | once a logger is told to finish, all threads have finished, every fan-out is complete and no push can ever happen |
| `Pipeline.AfterDestruction` | src/server.cpp:124-131 | after the teardown each logger has flushed its log and dropped exactly the rest of its queue |
| `Pipeline.TeardownNeverStuck` | src/server.cpp:124-175 | from stopping the I/O context to the last logger a progress step can be taken, unless a final flush threw |
| `Pipeline.TeardownStep` | src/server.cpp:124-175 | after Stop only progress steps and spurious wakeups happen; each progress step makes the work left smaller, a spurious wakeup adds at most three |
| `Pipeline.BoundedTeardown` | src/server.cpp:124-175 | every run from Stop takes at most as many progress steps as there is work left, plus three for each spurious wakeup |
| `Pipeline.TeardownEndsExactlyWhen` | src/server.cpp:124-175 | after Stop, unless a final flush threw, no progress step is left if and only if all loggers are destroyed |
| `Server.Server.Shutdown` | src/server.cpp:164-175 | every joinable thread is joined once and none stays joinable |
| `Server.Server.StartThreads` | src/server.cpp:97-122 | success holds n joinable threads; at any failure every thread started so far has been joined exactly once, in order |
| `Server.Server.Destroy` | src/server.cpp:124-131 | every joinable I/O thread is joined, in order, before the first logger is destroyed; each logger is destroyed once, in order, with its whole handshake |
| `Server.Server.Accept` | src/server.cpp:133-162 | every acceptor gets one more accept in flight |
| `Server.Server.FanOut` | src/server.cpp:144-156 | every logger gets one whole push of the batch under its mutex with its notification, by moving to one logger or by copying to several |
| `Server.Connection.OnRead` | src/session.cpp:64-81 | each logger gets one push of exactly the newly completed elements, and none if there are none, before the next read; an error ends the session |
| `Accepting.InvKept` | src/server.cpp:133-162 | each step of the running accept handlers keeps the balance of armed and fired accepts |
| `Accepting.AcceptAccounting` | src/server.cpp:133-162 | with no handler running, 1 + H - h_i accepts are in flight on acceptor i and k + (k - 1) * H in all, one each only for k = 1 or H = 0 |
| `Accepting.EveryCountIsReached` | src/server.cpp:133-162 | for any k acceptors and any H there is a run after which H handlers have finished and k + (k - 1) * H accepts are in flight |
| `Accepting.AcceptsOutgrowAcceptors` | src/server.cpp:133-162 | with two acceptors one connection leaves three accepts in flight |
| `Popl.FoundByName` | src/popl.hpp:900-915 | with distinct names each option is found under its long and its short name |
| `Popl.FindLong` | src/popl.hpp:900-906 | the first option with the long name |
| `Popl.FindShort` | src/popl.hpp:909-915 | the first option with the short name |
| `Popl.SetEntryBinds` | src/popl.hpp:765-775 | updating the reference keeps every unaliased bound variable in step |
| `Popl.FirstValueLastBinding` | src/popl.hpp:641-665 | value() agrees with the bound variable if and only if the first and the last value are equal |
| `CommandLine.EveryArgumentClaimedOnce` | src/popl.hpp:998-1085 | the tokens of the events are the arguments: each is claimed exactly once and in order |
| `CommandLine.DeliverAllGains` | src/popl.hpp:1046-1077 | the options of a cluster gain exactly their values, up to the first one that cannot be read |
| `CommandLine.Ledger` | src/popl.hpp:996-1085 | a scan succeeds if and only if every argument can be read by its option, and then the parser has gained exactly what the claims say |
| `Values.ErrorStopsScan` | src/popl.hpp:996-1085 | a scan that throws has executed everything before the argument that cannot be read, nothing after it, and names its option |
| `Values.RequiredAreChecked` | src/popl.hpp:1087-1094 | parsing succeeds if and only if the scan does and every required option has a value; otherwise it throws what the scan threw, or for the first required option without a value |
| `Values.SwitchGetsTrue` | src/popl.hpp:830-833 | a switch gains true and its variable is true |
| `Values.ImplicitGetsDefault` | src/popl.hpp:812-819 | an implicit option without a value gains its default |
| `Values.TruthIsRead` | src/popl.hpp:721-728 | a bool option gains true for exactly four texts, and false otherwise |
| `Values.TextIsRead` | src/popl.hpp:711-718 | a string option refuses the empty text as a missing argument and gains any other |
| `Values.StreamIsRead` | src/popl.hpp:731-762 | any other option refuses the empty text and what its type cannot read, each with its own error |
| `Values.PairIsGiven` | src/popl.hpp:984-992 | a pair of an ini file goes to the active option of its key, or its key to the unknown options |
| `Values.SwitchGivenTimes` | src/popl.hpp:996-1085 | a switch given n times gains exactly n values, all true, and its unaliased variable is true |
| `Values.RenderedSwitch` | src/popl.hpp:996-1085 | the same for a rendered command line, counted on what was rendered |
| `Values.TextsGiven` | src/popl.hpp:996-1085 | a string option gains exactly the texts it is given, in order |
| `CommandLine.FirstMissing` | src/popl.hpp:1087-1094 | the first required option that is not set |
| `ScanLaws.Composition` | src/popl.hpp:998-1071 | scanning two halves is scanning one after the other if and only if the first does not end in an option that takes its value from the second |
| `ScanLaws.ScanInTwoHalves` | src/popl.hpp:998-1085 | the parser's state is all that connects two halves |
| `ScanLaws.TailIsScannedAgain` | src/popl.hpp:1001-1006 | at a standalone `--` the rest is appended and then scanned again |
| `ScanLaws.RestTakenOnceExactlyWhen` | src/popl.hpp:360-364 | behind any arguments, the documented meaning of the first `--` holds if and only if the rest consists of bare `-`, and possibly a last `--` |
| `ScanLaws.RestTakenTwice` | src/popl.hpp:1001-1006 | a file name behind `--` is recorded twice |
| `ScanLaws.MultiplicityOfArguments` | src/popl.hpp:1001-1084 | each argument is recorded once for every scanned `--` before it and once more as a positional |
| `ScanLaws.ScanBinds` | src/popl.hpp:765-783 | a scan, even one that throws, leaves every unaliased bound variable in step with its option |
| `RoundTrip.ItemScans` | src/popl.hpp:1007-1084 | a rendered item is scanned as itself whatever follows it |
| `RoundTrip.RenderedItemsScan` | src/popl.hpp:996-1085 | the events of a rendered command line are its assignments and plain texts, and nothing is unknown |
| `RoundTrip.CommandLineRoundTrip` | src/popl.hpp:996-1095 | parsing a rendered command line gives every option its values in order, the plain texts in order, no unknown option, and bound variables in step |
| `Recognition.UnknownLongExactlyWhen` | src/popl.hpp:1007-1040 | a token that begins with `--` is recorded as unknown if and only if no active option is found under its name, or only a switch and a value is given |
| `Recognition.UnknownAssignmentExactlyWhen` | src/popl.hpp:1007-1040 | with distinct names, exactly which `--name=value` are recorded as unknown |
| `Recognition.EmptyNameIsFound` | src/popl.hpp:900-906 | `--=value` is given to the first option that has no long name |
| `Recognition.UnknownClusterExactlyWhen` | src/popl.hpp:1041-1079 | a cluster is recorded as unknown if and only if one of its letters names no active option and no option before it takes the rest as its value |
| `Recognition.LongMeans` | src/popl.hpp:1007-1040 | every token that begins with `--` gives the option of its name its value, or the next argument if it needs one and has none |
| `Recognition.LongMeansNothing` | src/popl.hpp:1007-1040 | without an active option of the name nothing is set and no further argument is used |
| `Recognition.ClusterMeans` | src/popl.hpp:1041-1079 | every cluster, with unknown letters or without, sets in order the switch of each known letter before the first letter that takes a value, and gives that one the rest or the next argument |
| `RoundTrip.TextIsKept` | src/popl.hpp:711-718 | a non-empty text becomes the value of a string option unchanged |
| `Ini.GivesLikeEvents` | src/popl.hpp:984-992 | delivering the pairs of a file acts like scanning the corresponding long options |
| `Ini.IniRoundTrip` | src/popl.hpp:943-994 | a file rendered with any layout is read as exactly its pairs in order, to the matching options or the unknown options |
| `Ini.LineDelivers` | src/popl.hpp:966-993 | what any line does, rendered or not: nothing, a change of section, or one pair with the section before its key |
| `Ini.TrimExactly` | src/popl.hpp:948-957 | trimming removes exactly the white space at both ends |
| `Ini.FinalNewlineIsOptional` | src/popl.hpp:966-973 | the newline at the end of the file makes no difference |
| `Bindings.AddBinds` | src/popl.hpp:857-873 | a new option is added at the end, without values and with its variable in step, and distinct names stay distinct |
| `Bindings.AddFailsExactlyWhen` | src/popl.hpp:857-873 | `add` refuses exactly the options with a short name of several letters, without a name, or with a name another option has |
| `Bindings.OperationBinds` | src/popl.hpp:615-675 | each operation, other than an `add` that fails, keeps an unaliased bound variable in step |
| `Bindings.BindingInvariant` | src/popl.hpp:765-833 | over every sequence of operations an unshared bound variable holds at every point the last value of its option, or its default, if and only if each `add` that fails spares it |
| `Bindings.ResetForgets` | src/popl.hpp:1098-1104 | reset clears values and lists and puts defaults back into bound variables |
| `Bindings.RejectedAddBindsExactlyWhen` | src/popl.hpp:857-873 | an `add` that fails leaves a binding in step if and only if its name is malformed, it has no default, it is bound elsewhere, or its default is what the variable stands for |
| `Bindings.RejectedAddChangesNothingExactlyWhen` | src/popl.hpp:857-873 | an `add` that fails changes nothing if and only if it writes nothing, or what its variable holds already |
| `Bindings.RejectedOptionOverwritesVariable` | src/popl.hpp:857-873 | an instance: this rejected `add` overwrites the variable of the option that owns the name |
| `OptionParser.ProgramOption.constructor` | src/popl.hpp:592-598 | an option starts without values and its variable with the default |
| `OptionParser.ProgramOption.UpdateReference` | src/popl.hpp:765-775 | the variable gets the last value, or else the default |
| `OptionParser.ProgramOption.AddValue` | src/popl.hpp:778-783 | the value is appended and the variable updated |
| `OptionParser.ProgramOption.Clear` | src/popl.hpp:786-791 | values are gone and the variable holds the default |
| `OptionParser.ProgramOption.SetValue` | src/popl.hpp:623-628 | the value replaces all values |
| `OptionParser.ProgramOption.SetDefault` | src/popl.hpp:669-675 | the default is replaced and the variable updated |
| `OptionParser.ProgramOption.AssignTo` | src/popl.hpp:615-620 | the option is bound to another variable, which is updated |
| `OptionParser.ProgramOption.Parse` | src/popl.hpp:711-833 | the text is read as the kind and type of the option say, a switch gaining true and an implicit option its default, or nothing changes and the error is returned |
| `OptionParser.OptionParser.FindByLongName` | src/popl.hpp:900-906 | the loop finds the first option with the long name |
| `OptionParser.OptionParser.FindByShortName` | src/popl.hpp:909-915 | the loop finds the first option with the short name |
| `OptionParser.OptionParser.AddOption` | src/popl.hpp:857-873 | the option is constructed, and kept unless its name is bad or taken |
| `OptionParser.OptionParser.RecogniseLong` | src/popl.hpp:1007-1034 | the long option is the event specified for the rest of the arguments; every access is in range |
| `OptionParser.OptionParser.ClusterLetters` | src/popl.hpp:1041-1077 | the nested, index-advancing loop delivers exactly the hits of the cluster |
| `OptionParser.OptionParser.ParseArgs` | src/popl.hpp:996-1095 | the in-place scan terminates, stays in range and leaves the state and exception that executing the events gives |
| `OptionParser.OptionParser.CheckRequiredOptions` | src/popl.hpp:1087-1094 | the exception for the first required option that is not set, if there is one |
| `OptionParser.OptionParser.ParseIniFile` | src/popl.hpp:966-993 | reading line by line delivers exactly the pairs of the file, up to the first exception |
| `OptionParser.OptionParser.Reset` | src/popl.hpp:1098-1104 | both lists and all values are cleared, option by option |

## Left out

- Sockets, acceptors, endpoints and error codes of asio (src/socket.cpp, src/acceptor.cpp): a read is any chunk of at most 1024 bytes or an error, an accept any completion.
- Parsing of JSON, formatting of messages and conversion of times (src/element.cpp): the frame-to-element function is a parameter.
- spdlog sinks, patterns and file rotation: a sink is a sequence with a level, a flush mark and calls that may throw.
- Signal handling, the sleep loop and the wiring of the options (src/scriptor.cpp, src/main.cpp): process plumbing.
- Help, groff and bash-completion printers of src/popl.hpp: text layout.
- Number parsing by `std::istringstream`: each option of another type than text or bool carries its reading function as a parameter.
- Opening the ini file: the reader starts from the contents; a file that cannot be opened reads as empty.
- Changing an option's attribute after it was added: the attribute is part of the fixed configuration.
- Allocation failure, except in the thread-start loop, and exceptions that leave the I/O context's run function.
- The construction of loggers from the server options: the loggers are given.
- Pipeline.ComesToRest: that such a continuation exists, and that no other way than to rest is left open; that the scheduler takes it is an assumption.
- Logger.Logger.Round: one thread's view; the worker asleep in its wait, and pushers between its steps, are in the step system.
- Pipeline.BoundedTeardown: that the scheduler lets some enabled progress step happen, and does not wake workers spuriously for ever, is an assumption the statement does not make.
- LoggerMachine.BoundedShutdown: bounds the worker's own steps; that it is never stuck is `JoinMakesProgress`.
