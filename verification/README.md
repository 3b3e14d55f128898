# nm-logging, modelled and proved in Dafny

nm-logging writes two kinds of records to JSON-lines files. Operational records may be lost, but writing them never
breaks the caller. Audit records may never be lost once acknowledged: the caller writes a durable *intent* before a
change and one *outcome* after it. A reader gets the records back and tells a torn last line from corruption. This
project models that logic and proves what it is relied on for.

| Part | Modules |
|---|---|
| text, UTF-8 (RFC 3629, sections 3 and 4), JSON (RFC 8259) and their round trips; the JSON grammar as syntax trees, and that the parser accepts exactly its texts | `Basics`, `Utf8`, `Json`, `JsonRoundTrip`, `JsonGrammar` |
| records, construction checks, the canonical mapping, the line codec; the grammars of event ids and actors | `Records`, `LineCodec`, `Grammars` |
| a stored record in the words of the stored format, entry by entry | `Wire` |
| event schemas, the field guard, templates, the registry | `Events` |
| framing, the reader | `Framing`, `Reader` |
| the append log shared by sinks and threads, one system call at a time; read-back; crashes | `FramedLog`, `ReadBack` |
| stream kinds, descriptors and latches over every run of constructors, writes and closes | `Descriptors` |
| the sinks, the registry of streams and the completion loop as classes and methods | `Sinks` |
| the intent/outcome protocol over every run of interleaved operations; the `with` statement; the facade classes | `AuditProtocol`, `AuditLog` |
| both layers as one machine, audit calls and system calls interleaved; what a reader finds of each operation after a crash | `AuditedLog`, `EndToEnd` |
| evidence for a failure: the capped walk over causes and contexts | `Evidence` |
| the fail-open facade, health counters, the rate-limited fallback, the package's own defect record | `Operational`, `OperationalLog`, `Health`, `Fallback`, `DefectRecord` |
| operational calls on a stream in any threads; what a reader finds of them | `OperationalReadBack` |

How to read it:

- State machines are written as `Next` and `Exec` over sequences of actions; their theorems hold for every sequence.
  The classes carry the source's fields, and each method's contract says that a call is a step (or a run of steps) of
  the machine, so the theorems hold of the classes. A sink is tied to two machines: its appends and closes to
  `FramedLog`, its constructor, appends and close to `Descriptors`. Ghost parameters and results name the machine state
  and the answers of the environment; the kernel and the clock keep a ghost list of what they were asked and answered
  (`said`), and contracts tie the answers in a run to that list, so that no answer can be made up.
- The environment is adversarial: `os.write` may be short or fail, fsync may fail, threads interleave between any two
  system calls, an audit sink may write and then raise, clocks may raise, a stream may call back into the fallback.
- Python `str` is a sequence of code points with lone surrogates; a `dict` is a sequence of pairs without repeated
  keys; a finite float is its `repr` text; an exception object is a value whose equality stands for identity.
- `SchemaOk` and `ConfigOk` are what the constructors enforce. `WellFramed` is the one assumption about the file found
  at start-up: whole lines, each a JSON object.

`dafny verify dfyconfig.toml` checks everything.

## Where the code does less than it says

- The facade is said to normalise every persistence error that leaves it. One that the *id factory* or the *clock* raises
  inside `intent`, on accepted fields, is passed on as it is: the `try` starts after the record is built
  (src/nm_logging/audit.py:131-140). `AuditProtocol.PersistenceErrorsLeaving` is the exact condition;
  `AuditProtocol.FactoryErrorPassedOn` and `AuditProtocol.ClockErrorPassedOn` show the two. What leaves a finalisation is
  always the facade's own, and what leaves the exit is that or the exception that escaped the body
  (`AuditProtocol.FinaliseOwn`, `AuditProtocol.ExitOwn`).
- A production call of the fail-open facade is meant to return normally. It raises when the clock raises a class that
  `_emit` does not catch (src/nm_logging/operational.py:136-155), when a sink breaks its contract, on an interrupt while a
  defect is reported, or on an interrupt from the fallback, whose guards catch `Exception` only
  (src/nm_logging/sinks/stderr.py:98-106, src/nm_logging/operational.py:203-209). `Operational.EmitExactly` states exactly
  when, `Operational.ClockErrorEscapes` shows it.
- In strict mode a sink error leaves a call exactly if the clock itself raises it:
  `Operational.StrictContainsSinkErrors`, shown by `Operational.ClockSinkErrorEscapes`.

## Model

| member | source | states |
|---|---|---|
| Utf8.DecodeEncode | src/nm_logging/sinks/jsonl.py:113-130 | decoding the UTF-8 of a text without surrogates gives the text back |
| Utf8.EncodeDecode | src/nm_logging/reader/jsonl.py:73-79 | whatever the strict decoder accepts is the encoding of its result, so no two byte strings read as one text |
| Utf8.EncodeNewlineFree | src/nm_logging/sinks/jsonl.py:113-130 | a text without a newline has an encoding without a newline byte, so a line holds one record |
| JsonRoundTrip.ValueRoundTrip | src/nm_logging/sinks/jsonl.py:33-44 | every printed value, followed by anything that ends a token, parses back to itself with the rest left over |
| JsonRoundTrip.LoadsPrint | src/nm_logging/reader/jsonl.py:80-95 | `loads(dumps(j)) == j` for every value whose dictionaries repeat no key, whatever its strings hold |
| JsonRoundTrip.StringRoundTrip | src/nm_logging/sinks/jsonl.py:33-44 | escaping and unescaping any string, control characters and surrogates included, is the identity |
| JsonRoundTrip.PrintVisible | src/nm_logging/sinks/jsonl.py:33-44 | printed JSON has no control character, so no newline |
| JsonGrammar.LoadsExactly | src/nm_logging/reader/jsonl.py:80-87 | a text is parsed to a value exactly if the whole of it, but for white space around, is a syntax tree of the JSON grammar with that meaning; everything else is refused |
| JsonGrammar.TreeParsed | src/nm_logging/reader/jsonl.py:80-81 | every tree of the grammar, whatever its white space, escapes and number form, is read as its meaning, and what follows is left over |
| JsonGrammar.TreeRead | src/nm_logging/reader/jsonl.py:80-81 | whatever is read at the start of a text is a tree of the grammar, spelled there, with that meaning |
| JsonGrammar.UnitsParsed | src/nm_logging/reader/jsonl.py:80-81 | a string is read character by character: escapes as what they stand for, a high and a low surrogate escaped side by side as one character |
| JsonGrammar.BuildsDict | src/nm_logging/reader/jsonl.py:80-81 | an object with repeated keys means each key once, where it first stood, with its last value |
| JsonGrammar.LoadsOf | src/nm_logging/reader/jsonl.py:80-87 | a value followed by anything but white space is refused |
| Records.ReservedNamesDiffer | src/nm_logging/record.py:84-99 | the twelve reserved names are pairwise different |
| Records.WriteHeader | src/nm_logging/serialise.py:35-54 | the envelope and kind entries are written key by key, in canonical order, none overwriting another |
| Records.ToMapping | src/nm_logging/serialise.py:30-69 | refuses exactly a reserved event field name; otherwise fills the canonical mapping: envelope, kind fields, event fields, message |
| Records.HeaderOf | src/nm_logging/serialise.py:35-54 | the entries before the event fields have different, reserved keys, none of them the message key |
| Grammars.EventIdExactly | src/nm_logging/record.py:117-125 | an event id is accepted exactly if it is within 128 characters and matches the documented segments, groups and separators |
| Grammars.ActorExactly | src/nm_logging/record.py:314-329 | an actor is accepted exactly if something is left of it without the white space around, that is none of the four placeholders in any case, and it is not shaped like an encrypted envelope |
| Grammars.NothingLeft | src/nm_logging/record.py:331-347 | stripping leaves nothing exactly of a text of white space |
| Wire.OperationalMapping | src/nm_logging/serialise.py:35-69 | the entries of an operational record by place, name and word: version, time, application, emitter, event, severity, then the fields, then the message |
| Wire.AuditMapping | src/nm_logging/serialise.py:35-69 | the same of an audit record: category, actor, stage, operation id, and the outcome as `success`, `failure` or `indeterminate` |
| Wire.TailAsSupplied | src/nm_logging/serialise.py:56-69 | the field entries are those the call supplied, all of them, as they are, in declared order, with no over-long string, surrogate or encrypted envelope, and nothing else |
| Wire.StageTold | src/nm_logging/serialise.py:35-69 | a stored stage of an operation tells what its call supplied, message included |
| Wire.CallTold | src/nm_logging/serialise.py:35-69 | a stored operational record tells what its call supplied, severity and message included |
| LineCodec.CanonicalEntriesOk | src/nm_logging/serialise.py:56-69 | the mapping of a constructible record repeats no key and holds only permitted values |
| LineCodec.LineRoundTrip | src/nm_logging/sinks/jsonl.py:113-130 | the line of an accepted record has one newline, its last byte, and the reader decodes its body to the record's mapping |
| LineCodec.EncodeLineAccepts | src/nm_logging/sinks/jsonl.py:113-130 | a constructible record is encoded exactly if its floats are finite, its text has no surrogate and its line is within the size limit; an infinite float is a value error |
| LineCodec.CanonicalEntriesInjective | src/nm_logging/serialise.py:35-69 | two constructible records with the same ordered mapping are the same record |
| LineCodec.LineDeterminesRecord | src/nm_logging/sinks/jsonl.py:113-130 | no two records share a line |
| Events.GuardFields | src/nm_logging/events.py:319-393 | the loops accept exactly the calls that supply declared names only, an allowed value for each, and all that the stage requires: strings of at most 512 characters without surrogates that do not begin `ENC[` and end `]`, ints that are no bools, finite floats, bools, and lists of these; any other call is a schema error |
| Events.PassesIffAcceptable | src/nm_logging/events.py:319-393 | the two passes of the guard together are that promise, for every schema, supply and stage |
| Events.SelectValidates | src/nm_logging/events.py:319-336 | what comes out has every supplied name, each entry the supplied value, lists made tuples |
| Events.SelectShape | src/nm_logging/events.py:319-336 | the validated dictionary is in declared order and holds each supplied declared field once, lists made tuples |
| Events.SelectLookup | src/nm_logging/events.py:319-349 | it answers every declared name as the supplied dictionary did |
| Events.GuardIdempotent | src/nm_logging/events.py:319-393 | validated fields pass the same guard again, unchanged |
| Events.GuardedFieldsFitRecord | src/nm_logging/record.py:229-253 | fields that pass the guard trip no reserved-name, value-shape or finite-float check downstream |
| Events.NoFields | src/nm_logging/events.py:251-262 | supplying no fields is acceptable exactly when nothing is required at that stage |
| Events.RenderBound | src/nm_logging/events.py:301-317 | a template renders exactly when every placeholder has a value |
| Events.RenderSays | src/nm_logging/events.py:301-317 | the rendered text is the template's pieces in order, each placeholder replaced by the text of its value |
| Events.RequiredFieldsRender | src/nm_logging/events.py:200-239 | on fields required at the call, a checked template always renders |
| Events.EventRegistry.Register | src/nm_logging/events.py:408-415 | a consumer adds an event exactly if it is new and outside the package's namespace; the package's own events never change |
| Events.EventRegistry.RegisterReserved | src/nm_logging/events.py:417-426 | a package event is added exactly if it is new and inside the package's namespace |
| Framing.SplitOf | src/nm_logging/reader/jsonl.py:61-67 | splitting lines followed by other bytes gives those lines and the split of the rest |
| Framing.SplitJoins | src/nm_logging/reader/jsonl.py:61-67 | splitting loses no byte: the lines and the newline-free tail joined are the input |
| Framing.CutLines | src/nm_logging/reader/jsonl.py:61-72 | of a cut file exactly the lines that lie within the cut remain whole |
| Reader.JsonlReader.Iterate | src/nm_logging/reader/jsonl.py:51-95 | the loop with its offset and line counter yields, fails and reports `truncated` as the pure reading of the content does; each mapping yielded is the object whose JSON text its line holds, and an error says what the next line is not |
| Reader.LineExactly | src/nm_logging/reader/jsonl.py:73-95 | a line is read as an object exactly if its bytes are the UTF-8 form of a JSON text of that object; any other is undecodable, corrupt or a non-object, whichever it is |
| Reader.ReadExactly | src/nm_logging/reader/jsonl.py:61-95 | of every file: the lines before the first that holds no object are yielded as the objects they hold, and the error is exactly about that line |
| Reader.BlankLineIsCorrupt | src/nm_logging/reader/jsonl.py:80-87 | a line of white space only, the empty line included, is corrupt |
| Reader.NothingMayFollow | src/nm_logging/reader/jsonl.py:80-87 | a line with anything but white space after its value is corrupt, so two records run together are never read as one |
| Reader.ReadGood | src/nm_logging/reader/jsonl.py:61-95 | good lines and a newline-free tail read as exactly their mappings, truncated exactly if the tail is not empty |
| Reader.ErrorPosition | src/nm_logging/reader/jsonl.py:73-94 | an error names the first bad framed line: as many newlines before its offset as mappings yielded, and its own verdict |
| FramedLog.StepInv | src/nm_logging/sinks/jsonl_audit.py:109-122 | every single step of any thread keeps the framing invariant |
| FramedLog.RunInv | src/nm_logging/sinks/_streams.py:93-125 | the framing invariant holds in every state that any interleaving reaches |
| FramedLog.FileShape | src/nm_logging/sinks/jsonl.py:87-99 | the file is its initial bytes, whole encoded lines, and a newline-free proper prefix of one line, owned by the lock holder or left by the partial write that latched it |
| FramedLog.RunGrows | src/nm_logging/sinks/jsonl_audit.py:112-119 | the file and the history only grow, what is durable stays durable, a latch never clears, and a latched file never changes again |
| FramedLog.HistoryInLockOrder | src/nm_logging/sinks/jsonl_audit.py:109-122 | attempts are decided in the order in which their threads took the lock |
| FramedLog.SubmissionsAttempted | src/nm_logging/sinks/jsonl.py:81-99 | each thread's submissions are attempted in order, each once |
| ReadBack.ReadsWholeLines | src/nm_logging/reader/jsonl.py:51-95 | at any moment of any run reading raises nothing and yields exactly the whole lines |
| ReadBack.ExactReadBack | src/nm_logging/sinks/_streams.py:86-125 | with the lock free the reader yields, in order, exactly the COMPLETE and SYNC_FAILED records, and `truncated` is the latch |
| ReadBack.AckedIsDurable | src/nm_logging/sinks/jsonl_audit.py:116-122 | an acknowledged line ends within the length that the last successful fsync made durable |
| ReadBack.CrashDurability | src/nm_logging/sinks/jsonl_audit.py:116-122 | after any cut at or above the durable length reading raises nothing, yields a prefix of the lines, sees each acknowledged record, and `truncated` tells whether the cut fell inside a line |
| ReadBack.EveryRunSurvivesCrash | src/nm_logging/sinks/jsonl_audit.py:78-122 | the same for every run of every interleaving from a fresh stream |
| Descriptors.StepInv | src/nm_logging/sinks/jsonl_audit.py:42-70 | each step of a constructor, write or close keeps kinds, states and descriptors consistent |
| Descriptors.StreamsStayIsolated | src/nm_logging/sinks/_streams.py:63-83 | one file never has sinks of both kinds, and the open descriptors are exactly those of sinks under construction or in use, one owner each |
| Descriptors.WritesUseOwnDescriptor | src/nm_logging/sinks/jsonl.py:81-110 | no write or fsync uses a descriptor that its owner has closed or that names another file |
| Descriptors.RunKeeps | src/nm_logging/sinks/_streams.py:40-83 | kinds never change, latches never clear, and a latch is set only by a partial write to that stream |
| Sinks.StreamRegistry.Register | src/nm_logging/sinks/_streams.py:63-83 | same kind shares the state, another kind is refused and changes nothing, first sight creates an unlatched one |
| Sinks.WriteCompletely | src/nm_logging/sinks/_streams.py:93-125 | the completion loop is a run of the log machine over the kernel's real answers: each `os.write` is of the bytes not yet taken, PARTIAL and NOTHING come only after one that took nothing, SYNC_FAILED only after a failed fsync |
| Sinks.JsonlAuditSink.Append | src/nm_logging/sinks/jsonl_audit.py:78-122 | a call is a run of the log machine over the kernel's real answers; it returns exactly if the attempt was COMPLETE, and each refusal has its class |
| Sinks.JsonlAuditSink.Close | src/nm_logging/sinks/jsonl_audit.py:141-151 | the first close gives up the descriptor even if it fails, a second does nothing; it is a step of both machines |
| Sinks.JsonlSink.Write | src/nm_logging/sinks/jsonl.py:81-99 | a call is a run of the log machine without fsync, over the kernel's real answers; it returns exactly if the attempt was COMPLETE |
| Sinks.JsonlSink.Close | src/nm_logging/sinks/jsonl.py:101-110 | as the audit sink's close, with its own error |
| Sinks.OpenAuditSink | src/nm_logging/sinks/jsonl_audit.py:42-70 | a construction that fails at any step leaves no descriptor open, even if giving it back fails and that error leaves instead; one that succeeds owns a fresh one of its kind; either way it is a run of the descriptor machine; the kernel calls made are open, fstat and the fsync of the directory, each only after the one before succeeded, and a close exactly on failure; a sink comes back only with the directory synced |
| Sinks.OpenSynced | src/nm_logging/sinks/jsonl_audit.py:42-62 | open, fstat, directory fsync: a failure of any gives the descriptor back and has its own class |
| Sinks.OpenOperationalSink | src/nm_logging/sinks/jsonl.py:61-79 | the same for the operational sink, which syncs no directory, and lets the error of a failed fstat out |
| AuditProtocol.BuildsExactly | src/nm_logging/audit.py:201-225 | a stage record is built exactly when the guard passes, the clock tells a UTC time and actor, id and outcome suit the stage; it carries what the call gave |
| AuditProtocol.IntentSays | src/nm_logging/audit.py:121-149 | what `intent` raises or returns, by what happened: the guard's schema error, the factory's or clock's own exception, the configuration error of construction, the sink's exception as the object it is unless it is a persistence error, which is wrapped around itself |
| AuditProtocol.FinaliseSays | src/nm_logging/audit.py:307-349 | what a finalisation raises and the handle keeps, by what happened: a schema error, a configuration error and any foreign exception stay what they are, only a persistence error is wrapped, with that exception as its original |
| AuditProtocol.ExitSays | src/nm_logging/audit.py:354-401 | what the exit raises, by what happened: an interrupt of the automatic outcome leaves as the object it is, anything else joins the body's exception |
| AuditProtocol.PersistenceErrorsLeaving | src/nm_logging/audit.py:129-149 | a persistence error that is not the facade's own leaves `intent` exactly if the id factory or the clock raised it on accepted fields; any other names the operation |
| AuditProtocol.FactoryErrorPassedOn | src/nm_logging/audit.py:131 | a concrete accepted call whose id factory raises a persistence error: that very exception leaves `intent` |
| AuditProtocol.FinaliseOwn | src/nm_logging/audit.py:319-349 | a persistence error that leaves a finalisation, or is kept by it, is the facade's own and names the operation |
| AuditProtocol.ExitOwn | src/nm_logging/audit.py:354-401 | a persistence error that leaves the exit is the one that escaped the body, or the facade's own |
| AuditProtocol.RunStoresOwn | src/nm_logging/audit.py:327-338 | over every run no handle ever keeps a persistence error that is not the facade's own |
| AuditProtocol.ClockErrorPassedOn | src/nm_logging/audit.py:132-140 | a concrete accepted call whose clock raises a persistence error: that very exception leaves `intent` |
| AuditProtocol.AutomaticIndeterminateBuilds | src/nm_logging/audit.py:164-175 | for every handle that `operation()` returns, the automatic indeterminate can fail only through the clock or the sink |
| AuditProtocol.AutomaticIndeterminateExit | src/nm_logging/audit.py:380-401 | for every handle that `operation()` returns, the exit with an exception re-raises it unchanged exactly if clock and sink did their part; otherwise the failure is kept and leaves, alone if it is an interrupt, with the body's exception if not |
| AuditProtocol.FinaliseKeeps | src/nm_logging/audit.py:307-349 | at most one outcome append, only from the open state; FINALISED exactly if it returned; the open state is left for good |
| AuditProtocol.ExitKeeps | src/nm_logging/audit.py:354-401 | the exit appends at most one indeterminate outcome, only for an open operation with an exception; it is silent exactly for a finalised one without |
| AuditProtocol.StepTrace | src/nm_logging/audit.py:121-199 | every call on the log or any handle keeps, for every id, what its appends may look like |
| AuditProtocol.RunTrace | src/nm_logging/audit.py:121-199 | so it holds after every run of interleaved operations with a non-repeating id factory |
| AuditProtocol.TraceSafety | src/nm_logging/audit.py:307-349 | the records of one id are none, [INTENT] or [INTENT, OUTCOME] of one event, category and actor; at most one outcome append is tried, after an acknowledged intent, though a sink may write and then raise |
| AuditProtocol.WithSoundness | src/nm_logging/audit.py:351-401 | a `with` statement that ends without raising recorded exactly one acknowledged outcome, asked for by its body; success and failure are never made up |
| AuditProtocol.ExitTable | docs/usage.md:138-151 | the whole exit table, for every body: what was tried, and the exception that the statement ends with |
| AuditProtocol.AfterFirstCall | src/nm_logging/audit.py:307-313 | after the first call every further one is refused and appends nothing |
| AuditLog.AuditLog.Build | src/nm_logging/audit.py:201-225 | render, clock and construction on guarded fields give the record or the exception of the protocol for the answer that the clock really gave; it is asked once |
| AuditLog.AuditOperation.AppendOutcome | src/nm_logging/audit.py:179-199 | one outcome record is built and handed to the sink, or the exception on the way is raised as it is; the clock is asked exactly if the guard passed |
| AuditLog.AuditLog.Intent | src/nm_logging/audit.py:121-149 | guard, id, clock, append: a call is one step of the protocol machine, or none if it gets no id; a handle comes back exactly if the sink acknowledged; the clock is asked exactly if the guard passed and an id came |
| AuditLog.AuditLog.Operation | src/nm_logging/audit.py:151-175 | an event with a field required on outcome is refused before anything is written; for any other the call is the intent step, with its handle or its exception |
| AuditLog.AuditOperation.Finalise | src/nm_logging/audit.py:307-349 | a call is one step of the protocol machine and raises what that step says; a handle past its first call asks no clock |
| AuditLog.AuditOperation.Exit | src/nm_logging/audit.py:354-401 | the exit is one step of the protocol machine and raises what that step says; the clock is asked exactly for the automatic outcome |
| AuditLog.OpenAuditLog | src/nm_logging/audit.py:79-100 | construction fails exactly for a bad application id or emitter |
| AuditedLog.MadeSays | src/nm_logging/audit.py:179-225 | the record that a call hands to the sink says what was asked of its operation: event, category, actor, fields, and the outcome asked for |
| AuditedLog.StepInv | src/nm_logging/sinks/jsonl_audit.py:78-122 | every audit call and every system call of any thread keeps the log framed, the traces, their agreement, each thread's record the one its pending call built, and every record saying what was asked |
| AuditedLog.RunInv | src/nm_logging/sinks/jsonl_audit.py:78-122 | so it holds after every run of audit calls and system calls in any interleaving |
| AuditedLog.SystemCallsFree | src/nm_logging/sinks/_streams.py:93-125 | joining protocol and log forbids no system call: whatever the kernel may do in a reachable state, the joint machine can do |
| EndToEnd.FiltersCommute | src/nm_logging/audit.py:179-199 | the appends of one id among those written are those written among the appends of that id |
| EndToEnd.CarriesIffNames | src/nm_logging/serialise.py:45-54 | a mapping has an operation id exactly if its record is of that operation; no event field can pretend to |
| EndToEnd.SurvivorsLanded | src/nm_logging/reader/jsonl.py:51-95 | what the reader yields after any crash, one inside an fsync included, is in order the first of the records whose lines are in the file |
| EndToEnd.SettledTraces | src/nm_logging/sinks/_streams.py:120-125 | the record being synced is that of a pending call; taking its fsync as failed gives the protocol state with the same records in the file, so a crash inside an fsync needs no case of its own |
| EndToEnd.EveryOperationRecovered | src/nm_logging/audit.py:121-199 | after every run and every crash at or above the durable length the reader raises nothing and yields of each operation the first of its records in the file, its intent and then one outcome; each mapping tells, in the words of the stored format, what was asked of it: event, category, actor, stage, id, the outcome as `success`, `failure` or `indeterminate`, every supplied field and the message; every handle's intent and every finalised outcome is there |
| Evidence.Locations | src/nm_logging/evidence.py:111-125 | the sliding window ends as the innermost frames |
| Evidence.CollectEvidence | src/nm_logging/evidence.py:100-134 | type, innermost frames, and the message exactly behind the marker |
| Evidence.SkipVisited | src/nm_logging/evidence.py:151-154 | dropping an exception seen before keeps the walk good |
| Evidence.VisitGood | src/nm_logging/evidence.py:158-166 | recording an exception and queueing its cause, then its context, keeps the walk good |
| Evidence.Covered | src/nm_logging/evidence.py:148-166 | whatever is at most k links away is recorded by then, or something as near is still queued |
| Evidence.RecordedAt | src/nm_logging/evidence.py:151-166 | each recorded exception stands at its distance from the raised one |
| Evidence.NearestFirst | src/nm_logging/evidence.py:155-157 | what the cap left out is no nearer than anything recorded |
| Evidence.BuildEvidence | src/nm_logging/evidence.py:137-168 | on every graph, cyclic or not, the walk ends; it lists distinct reachable exceptions breadth first, in nondecreasing distance, each by its first link; truncated exactly if more than the cap are reachable, and otherwise complete; foreign messages are withheld; each entry shows the type of its exception, its message exactly if it is marked, its innermost frames, and whether a cause or a context of an earlier one led to it, the cause first |
| Evidence.ReportsLabelled | src/nm_logging/evidence.py:158-166 | the raised exception has no relation, any other is the cause or context of an earlier entry, as its relation says |
| Fallback.StderrFallback.Emit | src/nm_logging/sinks/stderr.py:60-77 | one call is one step of the meter, even if an exception leaves it: the clock's, or an interrupt of the stream; a call from inside a write does nothing; the flag is always reset |
| Fallback.StderrFallback.Allow | src/nm_logging/sinks/stderr.py:79-96 | a new window clears the budget; past the budget one summary, then silence |
| Fallback.SummaryWords | src/nm_logging/sinks/stderr.py:79-96 | the text of the suppression line under the fallback's own limits |
| Fallback.StderrFallback.WriteLine | src/nm_logging/sinks/stderr.py:98-106 | one attempt, whatever the stream does, even if it calls back any number of times; only an interrupt leaves |
| Fallback.VolumeBound | src/nm_logging/sinks/stderr.py:79-96 | by time t at most (max_lines + 1) * (1 + floor((t - start) / W)) write attempts |
| Fallback.IntervalBound | src/nm_logging/sinks/stderr.py:79-96 | at most 2 * (max_lines + 1) write attempts in any half-open interval of length W |
| Fallback.WrittenExactly | src/nm_logging/sinks/stderr.py:79-96 | every run, call by call: of each window the first max_lines messages are written, then one summary, then nothing |
| Fallback.AllowedAreWritten | src/nm_logging/sinks/stderr.py:86-88 | as many messages as one window allows are all written, in order |
| Fallback.LinesUnbroken | src/nm_logging/sinks/stderr.py:74-96 | no written line holds a newline, whatever text was given |
| Health.FaithfulFold | src/nm_logging/health.py:47-63 | failures are the failure marks, recoveries the failure runs that a success ended, degraded the last mark, and recoveries + (1 if degraded) <= failures |
| Health.LoggingHealth.Snapshot | src/nm_logging/health.py:70-77 | a snapshot is the state of the fold at one moment, all four values of it |
| DefectRecord.DefectSchemaOk | src/nm_logging/operational.py:42-50 | the package's own event passes the checks of every schema |
| DefectRecord.DefectFieldsAccepted | src/nm_logging/operational.py:180-184 | for every event argument the self-report's fields pass the guard unchanged |
| DefectRecord.DefectSays | src/nm_logging/operational.py:179-184 | each kind of defect is named by its own word, and the event is repeated exactly if it is a well-formed id |
| DefectRecord.DefectConstructible | src/nm_logging/operational.py:186-194 | its record fails only for a clock that is not UTC |
| DefectRecord.DefectLineFits | src/nm_logging/sinks/jsonl.py:127-130 | for every event argument and any timestamp of at most 64 plain characters its line is encodable and at most 1203 bytes, far below the limit |
| Operational.BuildsExactly | src/nm_logging/operational.py:136-155 | a record is built exactly when the guard passes and the clock tells a UTC time; it carries what the call gave |
| Operational.DefectContained | src/nm_logging/operational.py:179-201 | the report of a defect fails only through the clock or the write, and then degrades, unless interrupted |
| Operational.EmitExactly | src/nm_logging/operational.py:129-209 | in production, exactly when a call raises and when it leaves no health mark; at most two writes, healthy exactly if the last one was accepted, a sink failure exactly if the call's own record could not be written |
| Operational.DefectsAreNamed | src/nm_logging/operational.py:129-177 | each kind of defect is reported as what it is, by one record, after the refused record if there was one |
| Operational.NeverRaises | src/nm_logging/operational.py:129-209 | with a sink that keeps its contract, a clock that answers and no interrupt, from the fallback included, production never raises |
| Operational.ClockErrorEscapes | src/nm_logging/operational.py:136-155 | a concrete valid production call that raises what its clock raised |
| Operational.StrictExactly | src/nm_logging/operational.py:129-209 | in strict mode, exactly what a call raises, an interrupt of the fallback included; it hands over its record at most once and marks health exactly if that was accepted or could not be written |
| Operational.StrictContainsSinkErrors | src/nm_logging/operational.py:159-177 | in strict mode a failed write is still contained: a sink error leaves exactly if the clock raised it, and with clock and sink in their contracts only defects leave |
| Operational.ClockSinkErrorEscapes | src/nm_logging/operational.py:136-155 | a concrete valid strict call that raises the sink error of its clock |
| Operational.EveryCallAccounted | src/nm_logging/health.py:47-63 | over every production run on fresh health, failures, healthy marks and the calls an exception left before a mark add up to the calls |
| Operational.OneMarkEach | src/nm_logging/operational.py:129-209 | with clock and sink in their contracts and no interrupt every call leaves exactly one mark |
| OperationalReadBack.DecidedLast | src/nm_logging/sinks/jsonl.py:81-99 | a call brings at most one record to the lock, its own or its report of a defect, and leaves it exactly if the sink accepted it |
| OperationalReadBack.HealthyIffAccepted | src/nm_logging/operational.py:159-201 | a call marks health healthy exactly if the last record it handed over was accepted, in both modes |
| OperationalReadBack.StepInv | src/nm_logging/sinks/jsonl.py:81-99 | every operational call and every system call of any thread keeps the log framed and its framed records those that were accepted, in lock order |
| OperationalReadBack.SystemCallsFree | src/nm_logging/sinks/_streams.py:93-125 | joining calls and log forbids no system call |
| OperationalReadBack.HealthyIsReadBack | src/nm_logging/reader/jsonl.py:51-95 | at every moment of every run the reader raises nothing and yields exactly one mapping for each call that marked health healthy, in lock order, and nothing of a call that degraded or raised; each tells what its call supplied, severity included, or is the report of what was wrong with it |
| OperationalReadBack.AcceptedTold | src/nm_logging/operational.py:129-201 | what a call leaves tells event, severity, fields and message as supplied; or, exactly for a refused call, the violation by its word and the event only if it is a well-formed id |
| OperationalLog.OperationalLog.Emit | src/nm_logging/operational.py:129-157 | the effect of a call on sink, health, fallback and caller is exactly that emission; the clock is asked for the call's own record exactly if the guard passes, and again exactly for the report of a defect |
| OperationalLog.OperationalLog.WriteRecord | src/nm_logging/operational.py:159-171 | the write half of it, by the class the sink raises |
| OperationalLog.OperationalLog.EmitDefect | src/nm_logging/operational.py:179-201 | the report half of it |
| OperationalLog.OperationalLog.Degrade | src/nm_logging/operational.py:203-209 | one failure mark, then one fallback line; what the fallback raises is swallowed unless it is an interrupt |
| OperationalLog.FailureWords | src/nm_logging/operational.py:203-209 | which word of the fallback line stands for which failure |
| OperationalLog.OpenOperationalLog | src/nm_logging/operational.py:76-104 | construction fails exactly for a bad application id or emitter; the package's event is registered unless the registry has one of that name |
| OperationalLog.DefectNamespace | src/nm_logging/events.py:55-70 | the package's own event lies where no consumer can register |

## Left out

- Real system calls, paths, symbolic links, file modes and inode reuse: a file is an identity that is not reused, and one process owns it.
- Torn tails inherited from an earlier process: the constructors do not look at the content, so `WellFramed` is assumed of the file at start-up.
- A successful fsync is taken to make the whole file durable, also after an earlier failed fsync.
- Asynchronous exceptions between two statements: an interrupt inside the completion loop would skip the latch.
- Two threads on one audit handle: the source has no lock there, so the calls on one handle are taken one after another.
- Two threads in one `StderrFallback`: the source has no lock there either, so its flag and counters are taken to be used by one thread at a time.
- A declared field named `self` passes the field-name grammar and is not reserved, but a call that supplies it as a keyword fails in Python before the facade's code runs; the model has no such calls.
- An audit call is two steps, handing its built record to the sink and the decision of its append; the guard, the clock and the id factory are not split into steps of their own.
- The id factory may raise and gives ids that do not repeat; uuid4 itself is not modelled.
- Subclasses of the built-in types: a `__format__` of a value or a `utcoffset` of a time zone that raises is not modelled.
- Float text and datetime internals: a finite float is a token of the JSON number grammar with a fraction or an exponent, so that two tokens of one float differ and a token too large for a float is not read as infinity; and a timestamp is its ISO text with a UTC flag; `ShortTime` bounds that text where size matters.
- Python's limit on converting very long integers, and its recursion limit in `json`.
- An outcome record may be refused for its size or for text in the actor or template although its intent was accepted; the encoder's checks are modelled, and no theorem says otherwise.
- The engines of `re` and `str.format`: grammars are predicates and a template is its parsed pieces; parsing a raw template is not part of this model.
- Case folding in the actor check is exact on the characters that can fold into the placeholder words.
- Traceback and notes text, how the interpreter sets `__context__`, `complete()`, which always raises, `__repr__`, packaging and import layering.
- Arguments of wrong Python types, except an event argument that is no string, a field value of any type, and a non-UTC clock.
- Fallback.VolumeBound: clock readings and window lengths are real numbers; rounding is not modelled.
- OperationalLog.OpenOperationalLog: a facade over a registry where another schema holds the name of the package's event is constructed, but its calls are not modelled.
