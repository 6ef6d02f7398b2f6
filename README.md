# jfr-streaming in Dafny

A model of the client side of jfr-streaming, a library that controls Java
Flight Recorder (JFR) recordings in a JVM over JMX, with proofs of what its
code promises. The model covers:

- the `Recording` life cycle (NEW, RECORDING, STOPPED, CLOSED) and the
  backend calls each operation makes;
- the `RecordingOptions` builder, which validates and normalises durations,
  sizes, booleans and names, and the sparse option map it builds;
- the three `RecordingConfiguration` variants and the line joining of a
  `.jfc` file;
- the two connection backends:
  - the FlightRecorderMXBean backend (`FlightRecorderConnection`), whose start
    is a conditional sequence of `invoke` calls;
  - the Java 8 DiagnosticCommand backend (`FlightRecorderConnectionJava8`),
    which forms `key=value` argument arrays, parses the id out of the `jfrStart`
    answer and checks that commercial features are unlocked;
- `makeOpenData`, the conversion of a string map into a `TabularData` keyed by
  `key`;
- the `.jfc`-to-Java generator: the SAX handler `JfcToMap`, which fills an
  insertion-ordered map from event name to settings; the `Setting` record;
  and the class generator, which builds put lines and fills a template.

The JMX transport is an `MBeanServer` class (`jmx.dfy`). It keeps a log of
every request with the reply it received, and the reply to each request is
arbitrary. Each backend operation is specified by what it appends to that log
and how it turns the reply into a result or an exception. A
`FlightRecorderConnection` also keeps a ghost trace of the backend operations
a recording asked of it. `Recording`'s contracts are stated in terms of that
trace.

Modules, one per file:

| module | file | models |
|---|---|---|
| `Wrappers` | `wrappers.dfy` | `Option`, `Result`, `Outcome` |
| `JavaLang` | `java_lang.dfy` | `String.trim`, `contains`, `replace`, `Long.parseLong`/`toString`, `Boolean.valueOf`, `null` in concatenation |
| `Exceptions` | `exceptions.dfy` | remote failures and the exceptions the client throws |
| `OpenDataUtils` | `open_data_utils.dfy` | `makeOpenData` |
| `Jmx` | `jmx.dfy` | the MBean server and the object-name grammar used |
| `RecordingOptions` | `recording_options.dfy` | `RecordingOptions` and its `Builder` |
| `RecordingConfiguration` | `recording_configuration.dfy` | `RecordingConfiguration` |
| `MxBeanBackend` | `mx_bean_backend.dfy` | the remote operations of `FlightRecorderConnection` |
| `DiagnosticCommandBackend` | `diagnostic_command_backend.dfy` | `FlightRecorderConnectionJava8` |
| `Connection` | `connection.dfy` | the connection class shared by both backends, and both `connect` methods |
| `Recording` | `recording.dfy` | `Recording` |
| `Setting` | `setting.dfy` | `Setting` |
| `JfcParser` | `jfc_parser.dfy` | `JfcParser` and its handler `JfcToMap` |
| `JfrSettingsAsMapClassGenerator` | `jfr_settings_as_map_class_generator.dfy` | `JfrSettingsAsMapClassGenerator.generate` |

Points where the code behaves differently from what its documentation and
names suggest, and the model follows the code:

- There is no fallback from the MXBean backend to the Java 8 backend. The
  code has two separate `connect` methods, and so does the model
  (`ConnectMxBean`, `ConnectDiagnosticCommand`).
- The MXBean backend does not dispatch on the configuration variant. It sends
  only `setPredefinedConfiguration`, with the name that `getName()` returns.
  That method does not exist in `RecordingConfiguration.java`. The model takes
  the name to be the payload of a predefined configuration and absent
  (`null`) for the other two variants (`ConfigurationName`).
- In the Java 8 backend, a captured id that is not a number raises an
  unwrapped NumberFormatException, not a wrapped protocol error.
- `FlightRecorderConnectionJava8` `implements` `FlightRecorderConnection`,
  which is a concrete class in the same revision. The model has one
  connection class with a protocol tag, and it dispatches each operation to
  one of the two backend modules.

## Model

| member | source | states |
|---|---|---|
| `Recording.Transition` | src/main/java/com/microsoft/jfr/Recording.java:95-225 | Definition, no ensures: the state each operation leaves behind (start from NEW or STOPPED gives RECORDING, stop from RECORDING gives STOPPED, close gives CLOSED, the rest keep the state). Its properties are `ClosedIsFinal`, `CloseIsFinal` and `RecordingNeedsStart` |
| `Recording.IllegalStateMessage` | src/main/java/com/microsoft/jfr/Recording.java:46-54 | Definition, no ensures: the MessageFormat text `Recording state {0} not in [{1}]`. `CreateIllegalStateMessage` proves the loop builds it, and `ClosedMessage` gives one exact text |
| `Recording.ClosedIsFinal` | src/main/java/com/microsoft/jfr/Recording.java:95-121 | No sequence of operations leaves CLOSED: start and stop change only NEW, STOPPED and RECORDING, and the other operations keep the state |
| `Recording.CloseIsFinal` | src/main/java/com/microsoft/jfr/Recording.java:215-225 | Once a close occurs in a sequence of operations, the recording ends CLOSED whatever follows |
| `Recording.RecordingNeedsStart` | src/main/java/com/microsoft/jfr/Recording.java:95-105 | A recording not yet RECORDING can only become RECORDING through a start |
| `Recording.CreateIllegalStateMessage` | src/main/java/com/microsoft/jfr/Recording.java:46-54 | The message is `Recording state <actual> not in [<expected>, <others>...]`, with the expected states' names joined by ", " in order |
| `Recording.ClosedMessage` | src/main/java/com/microsoft/jfr/Recording.java:101-103 | A start or stop on a closed recording reports exactly "Recording state CLOSED not in [NEW, RECORDING, STOPPED]" |
| `Recording.Recording.constructor` | src/main/java/com/microsoft/jfr/Recording.java:56-78 | A new recording keeps its connection, options and configuration, is NEW and has id -1 |
| `Recording.Recording.Start` | src/main/java/com/microsoft/jfr/Recording.java:95-105 | From NEW or STOPPED the state becomes RECORDING before the backend is called, even if the call then fails. The backend's `startRecording` is called once with the recording's options and configuration, and the id becomes its result. While RECORDING, nothing is called and the current id is returned. CLOSED refuses with IllegalStateException, makes no call and stays CLOSED |
| `Recording.Recording.Stop` | src/main/java/com/microsoft/jfr/Recording.java:113-121 | From RECORDING the state becomes STOPPED and `stopRecording(id)` is called once. NEW and STOPPED are no-ops with no call. CLOSED refuses with IllegalStateException. The id never changes |
| `Recording.Recording.Dump` | src/main/java/com/microsoft/jfr/Recording.java:132-140 | A null path is refused with NullPointerException first. In RECORDING or STOPPED, `dumpRecording(id, path)` is called once. In NEW or CLOSED it refuses with IllegalStateException and makes no call. The state never changes |
| `Recording.Recording.Clone` | src/main/java/com/microsoft/jfr/Recording.java:152-163 | In RECORDING or STOPPED, `cloneRecording(id, stop)` is called once. On success, the copy is a fresh recording with the same connection, options and configuration; its id is the backend's result; its state is STOPPED if `stop`, else this recording's state. This recording is unchanged. In other states it refuses with IllegalStateException |
| `Recording.Recording.GetStream` | src/main/java/com/microsoft/jfr/Recording.java:195-204 | Only in STOPPED is the backend's `getStream` called, with id, bounds and block size passed unchanged. Otherwise it refuses with IllegalStateException and makes no call |
| `Recording.Recording.Close` | src/main/java/com/microsoft/jfr/Recording.java:215-225 | The state is CLOSED afterwards. Only from RECORDING is `stopRecording` called, followed by `closeRecording` when the stop succeeded. Every failure is swallowed. From any other state, nothing is called |
| `RecordingOptions.KeyNameInjective` | src/main/java/com/microsoft/jfr/RecordingOptions.java:29-36 | Different options have different names, so collecting the built map by name never clashes |
| `RecordingOptions.MatchDuration` | src/main/java/com/microsoft/jfr/RecordingOptions.java:343-355 | If `([-+]?\d+)\s*(\w*)` matches the whole text, the text is an optional sign, digits, whitespace and a word. Group 1 is the sign and digits, and group 2 is the word |
| `RecordingOptions.MatchDurationOf` | src/main/java/com/microsoft/jfr/RecordingOptions.java:343-355 | Conversely, a sign, digits, whitespace and a word (not starting with a digit when there is no space) match, with exactly those groups |
| `RecordingOptions.ValidateDuration` | src/main/java/com/microsoft/jfr/RecordingOptions.java:348-383 | A null or blank text gives the option's default, and every refusal is an IllegalArgumentException |
| `RecordingOptions.DurationAccepted` | src/main/java/com/microsoft/jfr/RecordingOptions.java:354-377 | If a duration has the form sign, digits, blanks and a unit, its number is a long of at least 0, and its unit is in {"", ns, us, ms, s, m, h, d}, it is accepted. The stored value is then the canonical decimal, followed by " " and the unit when there is one |
| `RecordingOptions.DurationAcceptedIff` | src/main/java/com/microsoft/jfr/RecordingOptions.java:354-383 | Every text the pattern matches is accepted iff its number is a long of at least 0 and its unit is in the whitelist or empty. An accepted text is stored in canonical form |
| `RecordingOptions.DurationOverflow` | src/main/java/com/microsoft/jfr/RecordingOptions.java:357-361 | A matched number that does not fit a long is refused with IllegalArgumentException wrapping the NumberFormatException (`java.lang.NumberFormatException: For input string: "<number>"`) |
| `RecordingOptions.DurationMatched` | src/main/java/com/microsoft/jfr/RecordingOptions.java:355-377 | A matched, non-blank text with a non-negative long and a known unit is accepted in canonical form |
| `RecordingOptions.DurationResult` | src/main/java/com/microsoft/jfr/RecordingOptions.java:364-377 | Every value `validateDuration` accepts is a canonical duration text (decimal long, optional space and unit) |
| `RecordingOptions.DurationIdempotent` | src/main/java/com/microsoft/jfr/RecordingOptions.java:348-383 | Validating a canonical duration text again gives it back unchanged |
| `RecordingOptions.DurationExampleUnit` | src/main/java/com/microsoft/jfr/RecordingOptions.java:366-377 | `maxAge("2h")` stores "2 h" |
| `RecordingOptions.DurationExampleSign` | src/main/java/com/microsoft/jfr/RecordingOptions.java:357-369 | `duration("+07")` stores "7": sign and leading zeros are dropped |
| `RecordingOptions.DurationUnmatched` | src/main/java/com/microsoft/jfr/RecordingOptions.java:354-382 | A non-blank text the pattern does not match is refused with `bad format: <option> = "<text>"` |
| `RecordingOptions.DurationRefused` | src/main/java/com/microsoft/jfr/RecordingOptions.java:364-382 | A matched text with a negative number or an unknown unit is refused with the bad-format message |
| `RecordingOptions.DurationRejectsLeadingBlank` | src/main/java/com/microsoft/jfr/RecordingOptions.java:350-382 | Every non-blank text that starts with a blank, such as " 5", is refused with the bad-format message: blankness is tested with `trim`, but the pattern is matched against the untrimmed text |
| `RecordingOptions.DurationRejectsNegative` | src/main/java/com/microsoft/jfr/RecordingOptions.java:364-382 | A negative duration such as "-1 s" is refused with the bad-format message |
| `RecordingOptions.DurationRejectsUnknownUnit` | src/main/java/com/microsoft/jfr/RecordingOptions.java:366-382 | A unit outside the whitelist, as in "5 x", is refused with the bad-format message |
| `RecordingOptions.ValidateMaxSize` | src/main/java/com/microsoft/jfr/RecordingOptions.java:125-141 | Null gives "0". Every refusal is an IllegalArgumentException. Every accepted value is the canonical decimal of a long of at least 0. `MaxSizeOfText` relates the value to the input |
| `RecordingOptions.MaxSizeOfText` | src/main/java/com/microsoft/jfr/RecordingOptions.java:125-141 | A blank text stores "0". Otherwise the text is accepted iff `Long.parseLong` of the trimmed text gives a value of at least 0, which is then stored in canonical decimal. A trimmed text that is not a long is refused with the NumberFormatException's message |
| `RecordingOptions.MaxSizeAccepted` | src/main/java/com/microsoft/jfr/RecordingOptions.java:128-138 | A non-negative long with any padding `trim` strips is accepted and stored without the padding |
| `RecordingOptions.MaxSizeRejectsNegative` | src/main/java/com/microsoft/jfr/RecordingOptions.java:129-132 | A negative size is refused with `maxSize: <value> < 0` |
| `RecordingOptions.MaxSizeIdempotent` | src/main/java/com/microsoft/jfr/RecordingOptions.java:125-141 | Passing a stored size to `maxSize` again stores the same value |
| `RecordingOptions.Collected` | src/main/java/com/microsoft/jfr/RecordingOptions.java:253-256 | The collected map holds an option's name iff the option is among those streamed and its builder value differs from its default. It maps the name to the builder's value |
| `RecordingOptions.GetAfterBuild` | src/main/java/com/microsoft/jfr/RecordingOptions.java:271-326 | Each getter of built options returns the builder's value, or the option's default when the builder had none |
| `RecordingOptions.SnapshotHoldsDisk` | src/main/java/com/microsoft/jfr/RecordingOptions.java:258-262 | Built options always contain `disk`, so they are never empty |
| `RecordingOptions.Builder.constructor` | src/main/java/com/microsoft/jfr/RecordingOptions.java:60-65 | A new builder holds no options |
| `RecordingOptions.Builder.SetName` | src/main/java/com/microsoft/jfr/RecordingOptions.java:75-81 | Stores the trimmed name, or "" for null, replacing any earlier value. Other options are untouched |
| `RecordingOptions.Builder.SetMaxAge` | src/main/java/com/microsoft/jfr/RecordingOptions.java:108-114 | Stores the validated duration. A refused value throws and leaves the builder unchanged |
| `RecordingOptions.Builder.SetMaxSize` | src/main/java/com/microsoft/jfr/RecordingOptions.java:125-141 | Stores the validated size. A refused value throws and leaves the builder unchanged |
| `RecordingOptions.Builder.SetDumpOnExit` | src/main/java/com/microsoft/jfr/RecordingOptions.java:150-156 | Stores `Boolean.valueOf(s).toString()` |
| `RecordingOptions.Builder.SetDestination` | src/main/java/com/microsoft/jfr/RecordingOptions.java:169-177 | Stores the trimmed path, or "" for null |
| `RecordingOptions.Builder.SetDisk` | src/main/java/com/microsoft/jfr/RecordingOptions.java:186-192 | Stores `Boolean.valueOf(s).toString()` |
| `RecordingOptions.Builder.SetDuration` | src/main/java/com/microsoft/jfr/RecordingOptions.java:218-224 | Stores the validated duration. A refused value throws and leaves the builder unchanged |
| `RecordingOptions.Builder.Build` | src/main/java/com/microsoft/jfr/RecordingOptions.java:231-264 | The built map holds option k iff the builder's value differs from k's default, or k is `disk`. It maps k to the builder's value ("false" for an unset `disk`). The builder is not modified |
| `RecordingConfiguration.RecordingConfiguration.ConfigurationName` | src/main/java/com/microsoft/jfr/FlightRecorderConnection.java:122-124 | The configuration name is present exactly for a predefined configuration, and is its payload |
| `RecordingConfiguration.RecordingConfiguration.MbeanSetterFunction` | src/main/java/com/microsoft/jfr/RecordingConfiguration.java:35-100 | Definition, no ensures: `getMbeanSetterFunction` of each variant. `SetterNameIdentifiesVariant` proves the three names differ |
| `RecordingConfiguration.SetterNameIdentifiesVariant` | src/main/java/com/microsoft/jfr/RecordingConfiguration.java:35-100 | The three variants have three distinct setter names (`setPredefinedConfiguration`, `setConfiguration`, `setRecordingSettings`), so the name identifies the variant |
| `RecordingConfiguration.PredefinedConstants` | src/main/java/com/microsoft/jfr/RecordingConfiguration.java:20-26 | DEFAULT_CONFIGURATION and PROFILE_CONFIGURATION are predefined, with payloads "default" and "profile" |
| `RecordingConfiguration.NewPredefined` | src/main/java/com/microsoft/jfr/RecordingConfiguration.java:115-118 | A null name is refused with NullPointerException "configuration cannot be null". Any other name, even empty, is kept unchanged |
| `RecordingConfiguration.NewMapConfiguration` | src/main/java/com/microsoft/jfr/RecordingConfiguration.java:93-118 | A null map is refused with NullPointerException. Any other map, even empty, is kept unchanged |
| `RecordingConfiguration.NewJfcFile` | src/main/java/com/microsoft/jfr/RecordingConfiguration.java:63-74 | A null stream is refused with IllegalArgumentException "Null configuration provided". Otherwise the payload is the text with every line terminator removed |
| `RecordingConfiguration.Lines` | src/main/java/com/microsoft/jfr/RecordingConfiguration.java:69-70 | No line that `lines()` yields contains a line break |
| `RecordingConfiguration.ReadConfigurationFile` | src/main/java/com/microsoft/jfr/RecordingConfiguration.java:67-75 | Definition, no ensures: the lines of a non-null stream joined with no separator. `LinesJoined` proves it is the text with every line break removed; the null stream is handled by `NewJfcFile` |
| `RecordingConfiguration.LinesJoined` | src/main/java/com/microsoft/jfr/RecordingConfiguration.java:69-71 | Joining the lines with no separator gives the text with every "\n" and "\r" removed |
| `OpenDataUtils.Put` | core/src/main/java/com/microsoft/jfr/OpenDataUtils.java:29 | A row is added under its `key` iff that key is not yet in the table, and every other row is kept |
| `OpenDataUtils.MakeOpenData` | core/src/main/java/com/microsoft/jfr/OpenDataUtils.java:17-32 | One row per map entry, indexed by the entry's key, with the entry's key and value as items. Reading the table back gives the map, and an empty map gives an empty table |
| `MxBeanBackend.Wrap` | src/main/java/com/microsoft/jfr/FlightRecorderConnection.java:155-158 | IOException (and the unchecked RuntimeMBeanException) propagate unchanged. InstanceNotFound, MBean and Reflection exceptions become InternalError |
| `MxBeanBackend.AsLong` | src/main/java/com/microsoft/jfr/FlightRecorderConnection.java:115 | The `(long)` cast succeeds exactly on a `Long` reply, and gives its value, which is within the range of a long. A null reply fails with NullPointerException, and any other object with ClassCastException |
| `MxBeanBackend.VoidResult` | src/main/java/com/microsoft/jfr/FlightRecorderConnection.java:169-175 | An operation without a result succeeds exactly when the call returned |
| `MxBeanBackend.LongResult` | src/main/java/com/microsoft/jfr/FlightRecorderConnection.java:202-208 | An operation with a `long` result succeeds exactly when the call returned a long, and gives that value |
| `MxBeanBackend.ConfigurationCall` | src/main/java/com/microsoft/jfr/FlightRecorderConnection.java:122-132 | `setPredefinedConfiguration` is sent at most once, and exactly when the configuration is non-null and predefined with a name that is not blank |
| `MxBeanBackend.OptionsCall` | src/main/java/com/microsoft/jfr/FlightRecorderConnection.java:134-145 | `setRecordingOptions` is sent at most once, and exactly when the options are non-null with a non-empty map. It carries the id and `makeOpenData` of that map |
| `MxBeanBackend.StartRecording` | src/main/java/com/microsoft/jfr/FlightRecorderConnection.java:111-159 | `newRecording` is sent first. A failure or a non-long answer ends the start. Otherwise the optional configuration call, the optional options call and `startRecording(id)` follow in order, stopping at the first failure. The id `newRecording` answered is returned when none failed |
| `MxBeanBackend.ConfigureAndStart` | src/main/java/com/microsoft/jfr/FlightRecorderConnection.java:122-154 | After `newRecording`, the rest of the plan runs in order up to its first failure. The result is the id, or the failure |
| `MxBeanBackend.SetConfiguration` | src/main/java/com/microsoft/jfr/FlightRecorderConnection.java:122-132 | Sends the configuration call when the plan has one. A failure ends the run |
| `MxBeanBackend.OptionsAndStart` | src/main/java/com/microsoft/jfr/FlightRecorderConnection.java:134-154 | Sends the options call when the plan has one, then `startRecording(id)`. The run stops at the first failure |
| `MxBeanBackend.SetOptions` | src/main/java/com/microsoft/jfr/FlightRecorderConnection.java:134-145 | Sends `setRecordingOptions` with the table of the options when the plan has it. A failure ends the run |
| `MxBeanBackend.StartSucceeded` | src/main/java/com/microsoft/jfr/FlightRecorderConnection.java:111-154 | A start that returned id sent exactly `newRecording`, then the configuration call and options call when due, then `startRecording(id)`, and every call returned |
| `MxBeanBackend.StartFailedEarly` | src/main/java/com/microsoft/jfr/FlightRecorderConnection.java:115-120 | If `newRecording` fails or does not answer a long, nothing else is sent and the start fails |
| `MxBeanBackend.BuiltOptionsAreSent` | src/main/java/com/microsoft/jfr/FlightRecorderConnection.java:134-145 | Options made by the builder always contain `disk`, so they always trigger `setRecordingOptions` |
| `MxBeanBackend.ConfigurationIsSet` | src/main/java/com/microsoft/jfr/FlightRecorderConnection.java:122-131 | A predefined configuration whose trimmed name is not empty is sent as `setPredefinedConfiguration(id, name)` |
| `MxBeanBackend.BlankConfigurationIsSkipped` | src/main/java/com/microsoft/jfr/FlightRecorderConnection.java:122-124 | A predefined configuration whose name trims to empty sends no configuration call |
| `MxBeanBackend.StopRecording` | src/main/java/com/microsoft/jfr/FlightRecorderConnection.java:169-175 | Exactly one `stopRecording(id)` call. It succeeds iff that call returned |
| `MxBeanBackend.DumpRecording` | src/main/java/com/microsoft/jfr/FlightRecorderConnection.java:185-191 | Exactly one `copyTo(id, outputFile)` call. It succeeds iff that call returned |
| `MxBeanBackend.CloneRecording` | src/main/java/com/microsoft/jfr/FlightRecorderConnection.java:202-208 | Exactly one `cloneRecording(id, stop)` call. Its long answer is the new id |
| `MxBeanBackend.CloseRecording` | src/main/java/com/microsoft/jfr/FlightRecorderConnection.java:260-266 | Exactly one `closeRecording(id)` call. It succeeds iff that call returned |
| `MxBeanBackend.StreamOptionsOf` | src/main/java/com/microsoft/jfr/FlightRecorderConnection.java:238-241 | Definition, no ensures: the options map of `getStream`. `StreamOptionsContents` states which keys it holds and what each value reads back as |
| `MxBeanBackend.StreamOptions` | src/main/java/com/microsoft/jfr/FlightRecorderConnection.java:238-241 | The stream options map is filled step by step to the options of the given bounds and block size |
| `MxBeanBackend.StreamOptionsContents` | src/main/java/com/microsoft/jfr/FlightRecorderConnection.java:238-241 | The map has `startTime` iff a start is given, `endTime` iff an end is given, and `blockSize` iff it is > 0. The block size is written in decimal, which parses back to the same long. No other key is present |
| `MxBeanBackend.GetStream` | src/main/java/com/microsoft/jfr/FlightRecorderConnection.java:236-250 | Exactly one `openStream(id, table of the stream options)` call. On a long answer, the stream reads that stream id from the same MBean |
| `DiagnosticCommandBackend.Wrap` | src/main/java/com/microsoft/jfr/flightRecorderConnections/FlightRecorderConnectionJava8.java:118-119 | Checked remote failures become a JfrStreamingException with the operation's message. Only the unchecked RuntimeMBeanException propagates |
| `DiagnosticCommandBackend.CommandResult` | src/main/java/com/microsoft/jfr/flightRecorderConnections/FlightRecorderConnectionJava8.java:155-162 | A command whose answer is ignored succeeds iff it returned, and fails with the wrapped failure otherwise |
| `DiagnosticCommandBackend.EntryOrder` | src/main/java/com/microsoft/jfr/flightRecorderConnections/FlightRecorderConnectionJava8.java:125-127 | The entry order lists every key of the options map exactly once |
| `DiagnosticCommandBackend.OptionArgs` | src/main/java/com/microsoft/jfr/flightRecorderConnections/FlightRecorderConnectionJava8.java:125-130 | One `key=value` argument per entry whose key is not `disk`, and nothing else |
| `DiagnosticCommandBackend.FormOptions` | src/main/java/com/microsoft/jfr/flightRecorderConnections/FlightRecorderConnectionJava8.java:124-144 | Null options fail with NullPointerException. A configuration that is not predefined (null included) is refused with "Java 8 currently only supports predefined configurations (default/profile)". Otherwise the arguments are `settings=<name>` first, then one `key=value` per option other than `disk` |
| `DiagnosticCommandBackend.ArgumentsOfOptions` | src/main/java/com/microsoft/jfr/flightRecorderConnections/FlightRecorderConnectionJava8.java:125-130 | There is one option argument per map entry except `disk`, and each entry other than `disk` appears as `key=value` |
| `DiagnosticCommandBackend.BuiltOptionsArguments` | src/main/java/com/microsoft/jfr/flightRecorderConnections/FlightRecorderConnectionJava8.java:124-144 | With built options and a predefined configuration, the arguments are formed, and there are as many as built options (settings in, disk out) |
| `DiagnosticCommandBackend.IndexOf` | src/main/java/com/microsoft/jfr/flightRecorderConnections/FlightRecorderConnectionJava8.java:113-114 | The result is the first position at or after `from` where the text occurs, and absent exactly when it occurs at no such position |
| `DiagnosticCommandBackend.StartCapture` | src/main/java/com/microsoft/jfr/flightRecorderConnections/FlightRecorderConnectionJava8.java:113-115 | A capture is non-empty and the answer contains "Started recording " + capture + ". "; an answer without "Started recording " captures nothing. `CaptureOf` and `StartedRecordingParsed` give the exact capture |
| `DiagnosticCommandBackend.ParseStartResponse` | src/main/java/com/microsoft/jfr/flightRecorderConnections/FlightRecorderConnectionJava8.java:111-121 | The id is `Long.parseLong` of the capture of `Started recording (.+?)\. .*`. No match fails with "Failed to start recording", and a capture that is not a number fails with NumberFormatException |
| `DiagnosticCommandBackend.CaptureOf` | src/main/java/com/microsoft/jfr/flightRecorderConnections/FlightRecorderConnectionJava8.java:29-30 | The capture is the text between "Started recording " and the first ". " after it |
| `DiagnosticCommandBackend.StartedRecordingParsed` | src/main/java/com/microsoft/jfr/flightRecorderConnections/FlightRecorderConnectionJava8.java:111-116 | "Started recording <id>. ..." gives back every long id unchanged |
| `DiagnosticCommandBackend.StartedRecording99` | src/test/java/com/microsoft/jfr/flightRecorderConnections/FlightRecorderConnectionJava8Test.java:61-70 | "Started recording 99. " yields 99 |
| `DiagnosticCommandBackend.StartedRecordingNotANumber` | src/main/java/com/microsoft/jfr/flightRecorderConnections/FlightRecorderConnectionJava8.java:114-116 | A non-numeric capture fails with an unwrapped NumberFormatException |
| `DiagnosticCommandBackend.StartedRecordingUnterminated` | src/main/java/com/microsoft/jfr/flightRecorderConnections/FlightRecorderConnectionJava8.java:113-121 | Without a space after the dot there is no match, and the start fails with "Failed to start recording" |
| `DiagnosticCommandBackend.StartResult` | src/main/java/com/microsoft/jfr/flightRecorderConnections/FlightRecorderConnectionJava8.java:110-121 | An id results only from a String answer whose capture `Long.parseLong` reads as that id. A thrown checked exception is wrapped in JfrStreamingException "Failed to start recording", a null answer gives NullPointerException, and an answer of another type gives ClassCastException |
| `DiagnosticCommandBackend.StartRecording` | src/main/java/com/microsoft/jfr/flightRecorderConnections/FlightRecorderConnectionJava8.java:104-122 | Refused options or configuration fail with no remote call. Otherwise there is exactly one `jfrStart` call with the formed arguments, and its answer is parsed for the id |
| `DiagnosticCommandBackend.StopRecording` | src/main/java/com/microsoft/jfr/flightRecorderConnections/FlightRecorderConnectionJava8.java:154-162 | Exactly one `jfrStop` call with `["name=<id>"]` |
| `DiagnosticCommandBackend.DumpRecording` | src/main/java/com/microsoft/jfr/flightRecorderConnections/FlightRecorderConnectionJava8.java:172-184 | Exactly one `jfrDump` call with `["filename=<path>", "recording=<id>", "compress=true"]` |
| `DiagnosticCommandBackend.CloneRecording` | src/main/java/com/microsoft/jfr/flightRecorderConnections/FlightRecorderConnectionJava8.java:193-196 | Always fails with UnsupportedOperationException |
| `DiagnosticCommandBackend.GetStream` | src/main/java/com/microsoft/jfr/flightRecorderConnections/FlightRecorderConnectionJava8.java:201-204 | Always fails with UnsupportedOperationException |
| `DiagnosticCommandBackend.CloseRecording` | src/main/java/com/microsoft/jfr/flightRecorderConnections/FlightRecorderConnectionJava8.java:209-212 | Always fails with UnsupportedOperationException |
| `DiagnosticCommandBackend.UnlockCheckRequest` | src/main/java/com/microsoft/jfr/flightRecorderConnections/FlightRecorderConnectionJava8.java:217 | Definition, no ensures: the `vmCheckCommercialFeatures` invoke with no arguments. `Connection.ConnectDiagnosticCommand` ensures it is the request sent after the lookup |
| `DiagnosticCommandBackend.UnlockCheck` | src/main/java/com/microsoft/jfr/flightRecorderConnections/FlightRecorderConnectionJava8.java:215-227 | It passes iff the answer is not a String, or is a String containing "unlocked". A String without it fails with the unlock message. A remote failure fails with "Unable to determine if commercial features are unlocked" |
| `DiagnosticCommandBackend.UnlockedAnswerPasses` | src/test/java/com/microsoft/jfr/flightRecorderConnections/FlightRecorderConnectionJava8Test.java:26-31 | Any answer containing "unlocked" passes, including "unlocked" itself |
| `DiagnosticCommandBackend.LockedAnswerFails` | src/test/java/com/microsoft/jfr/flightRecorderConnections/FlightRecorderConnectionJava8Test.java:33-38 | The answer "locked" fails with JfrStreamingException |
| `Connection.InstanceName` | src/main/java/com/microsoft/jfr/FlightRecorderConnection.java:73-74 | The MBean's name is the object instance's name. A remote failure propagates unchanged |
| `Connection.JfrObjectNameWellFormed` | src/main/java/com/microsoft/jfr/FlightRecorderConnection.java:72-79 | `jdk.management.jfr:type=FlightRecorder` is a well-formed object name, so the InternalError branch is unreachable |
| `Connection.DiagnosticCommandObjectNameWellFormed` | src/main/java/com/microsoft/jfr/flightRecorderConnections/FlightRecorderConnectionJava8.java:64-71 | `com.sun.management:type=DiagnosticCommand` is a well-formed object name |
| `Connection.FlightRecorderConnection.constructor` | src/main/java/com/microsoft/jfr/FlightRecorderConnection.java:268-271 | The connection keeps its server and MBean name, and has made no calls |
| `Connection.FlightRecorderConnection.StartRecording` | src/main/java/com/microsoft/jfr/FlightRecorderConnection.java:111-159 | Records one start in the trace. On the MXBean protocol it runs the start plan. On Java 8: null options fail with NullPointerException and no call. A configuration that is not predefined fails with "Java 8 currently only supports predefined configurations (default/profile)" and no call. Otherwise exactly one `jfrStart` call with the formed `settings=`/`key=value` arguments is appended to the log, and its answer is parsed for the id |
| `Connection.FlightRecorderConnection.StopRecording` | src/main/java/com/microsoft/jfr/FlightRecorderConnection.java:169-175 | One remote call on either protocol: `stopRecording(id)` or `jfrStop name=<id>` |
| `Connection.FlightRecorderConnection.DumpRecording` | src/main/java/com/microsoft/jfr/FlightRecorderConnection.java:185-191 | One remote call on either protocol: `copyTo(id, path)` or `jfrDump` |
| `Connection.FlightRecorderConnection.CloneRecording` | src/main/java/com/microsoft/jfr/FlightRecorderConnection.java:202-208 | One `cloneRecording` call on the MXBean protocol. On Java 8 it fails as unsupported with no call |
| `Connection.FlightRecorderConnection.GetStream` | src/main/java/com/microsoft/jfr/FlightRecorderConnection.java:236-250 | One `openStream` call with the stream options on the MXBean protocol. On Java 8 it fails as unsupported with no call |
| `Connection.FlightRecorderConnection.CloseRecording` | src/main/java/com/microsoft/jfr/FlightRecorderConnection.java:260-266 | One `closeRecording` call on the MXBean protocol. On Java 8 it fails as unsupported with no call |
| `Connection.ConnectMxBean` | src/main/java/com/microsoft/jfr/FlightRecorderConnection.java:67-80 | A null server is refused with NullPointerException. Otherwise there is one lookup of `jdk.management.jfr:type=FlightRecorder`. A failed lookup propagates and is never an InternalError. On success the connection speaks to the name found and has made no calls |
| `Connection.ConnectDiagnosticCommand` | src/main/java/com/microsoft/jfr/flightRecorderConnections/FlightRecorderConnectionJava8.java:60-73 | A null server is refused. The DiagnosticCommand MBean is looked up, then the unlock check runs. A connection exists only if both succeeded |
| `Setting.Setting.ToString` | src/main/java/com/microsoft/jfr/generation/Setting.java:13-18 | Definition, no ensures: `Setting{name='<name>', value='<value>'}`. `ToStringReadBack` proves name and value read back out of it, and `ToStringAmbiguous` that quotes make it ambiguous |
| `Setting.ToStringReadBack` | src/main/java/com/microsoft/jfr/generation/Setting.java:13-18 | When the printed name holds no quote, the name and the value can be read back out of the `toString` text (`ReadBack`). The name runs to the first quote, and the value lies between the following `', value='` and the final `'}` |
| `Setting.ToStringDistinguishes` | src/main/java/com/microsoft/jfr/generation/Setting.java:13-18 | When neither printed name holds a quote, equal `toString` texts mean equal printed names and equal printed values. A null part and the text "null" print alike |
| `Setting.ToStringAmbiguous` | src/main/java/com/microsoft/jfr/generation/Setting.java:14-17 | Quotes are not escaped: two different settings can print alike |
| `JfcParser.IndexOf` | src/main/java/com/microsoft/jfr/generation/JfcParser.java:18 | The position of a key in the insertion-ordered map is its first occurrence, or absent when no entry has it |
| `JfcParser.Put` | src/main/java/com/microsoft/jfr/generation/JfcParser.java:90 | `LinkedHashMap.put`: a present key keeps its position, and every key stays where it was. A new key is appended at the end. No key is lost |
| `JfcParser.PutLookup` | src/main/java/com/microsoft/jfr/generation/JfcParser.java:90 | After `put`, the key maps to the new list and every other key keeps its list |
| `JfcParser.PutDistinct` | src/main/java/com/microsoft/jfr/generation/JfcParser.java:18 | `put` keeps the map's keys distinct |
| `JfcParser.Step` | src/main/java/com/microsoft/jfr/generation/JfcParser.java:56-93 | One callback fails exactly when it dereferences the null value buffer (the end of a setting, or text in in-setting mode). Callbacks keep the handler consistent, never lose an event name, and keep keys distinct |
| `JfcParser.Replay` | src/main/java/com/microsoft/jfr/generation/JfcParser.java:32 | A run of callbacks, stopping at the first exception, keeps the handler consistent and the keys distinct, and loses no event name |
| `JfcParser.LastChunkKept` | src/main/java/com/microsoft/jfr/generation/JfcParser.java:71-76 | In a setting, each chunk of text replaces the value, so only the last chunk survives |
| `JfcParser.IgnoredEventsChangeNothing` | src/main/java/com/microsoft/jfr/generation/JfcParser.java:56-93 | Elements other than `event` and `setting`, and text outside a setting, change nothing |
| `JfcParser.SettingRecorded` | src/main/java/com/microsoft/jfr/generation/JfcParser.java:62-87 | `<setting name=n>text</setting>` appends (n, text) to the current list and leaves in-setting mode |
| `JfcParser.EmptySettingRecorded` | src/main/java/com/microsoft/jfr/generation/JfcParser.java:62-87 | A setting without text is appended with the value "" |
| `JfcParser.SettingsRecorded` | src/main/java/com/microsoft/jfr/generation/JfcParser.java:81-87 | Consecutive settings are appended in document order |
| `JfcParser.EventRecorded` | src/main/java/com/microsoft/jfr/generation/JfcParser.java:89-92 | An event's end stores under its name every setting closed since the previous event end, and starts an empty list |
| `JfcParser.EventOpened` | src/main/java/com/microsoft/jfr/generation/JfcParser.java:58-60 | The start of an `event` sets the current event name from its `name` attribute |
| `JfcParser.DocumentRecorded` | src/main/java/com/microsoft/jfr/generation/JfcParser.java:56-93 | A document of events stores each event's own settings under its name, in document order. A repeated name overwrites its list in place |
| `JfcParser.JfcParser.constructor` | src/main/java/com/microsoft/jfr/generation/JfcParser.java:16-24 | A new parser keeps its source path and has an empty map |
| `JfcParser.JfcParser.Parse` | src/main/java/com/microsoft/jfr/generation/JfcParser.java:29-36 | A fresh handler receives the parser's callbacks in order until the first exception, which propagates. The map ends as that run leaves it |
| `JfcParser.JfcToMap.constructor` | src/main/java/com/microsoft/jfr/generation/JfcParser.java:38-53 | A new handler has an empty value buffer, an empty list and no setting in progress |
| `JfcParser.JfcToMap.StartElement` | src/main/java/com/microsoft/jfr/generation/JfcParser.java:56-68 | Updates the handler's fields as one start callback does: `event` sets the event name; `setting` records its name, resets the value and enters in-setting mode |
| `JfcParser.JfcToMap.Characters` | src/main/java/com/microsoft/jfr/generation/JfcParser.java:71-76 | In in-setting mode the value becomes the text. Outside it nothing changes |
| `JfcParser.JfcToMap.EndElement` | src/main/java/com/microsoft/jfr/generation/JfcParser.java:79-93 | Ending a setting appends it to the list and leaves in-setting mode. Ending an event puts the list under the event name and starts a new one. A failure changes nothing |
| `JfrSettingsAsMapClassGenerator.Generate` | src/main/java/com/microsoft/jfr/generation/JfrSettingsAsMapClassGenerator.java:32-48 | The output is the template with the class name in place of `CLASS_NAME`, and the put block in place of `MAP_PUT` (also inside the class name, since replacement happens in that order). For an empty map the block is empty |
| `JfrSettingsAsMapClassGenerator.SettingLinesAppend` | src/main/java/com/microsoft/jfr/generation/JfrSettingsAsMapClassGenerator.java:40-43 | The put lines of consecutive settings follow each other in list order |
| `JfrSettingsAsMapClassGenerator.PutBlockAppend` | src/main/java/com/microsoft/jfr/generation/JfrSettingsAsMapClassGenerator.java:36-45 | The blocks of consecutive events follow each other in map order, each ending with an extra line separator |
| `JfrSettingsAsMapClassGenerator.LineInSettingLines` | src/main/java/com/microsoft/jfr/generation/JfrSettingsAsMapClassGenerator.java:40-43 | Each setting has its own `\t\tsettingsAsMap.put("<event>#<name>","<value>");` line among its event's lines |
| `JfrSettingsAsMapClassGenerator.LinesInBlock` | src/main/java/com/microsoft/jfr/generation/JfrSettingsAsMapClassGenerator.java:36-45 | Every event's lines are in the put block |
| `JfrSettingsAsMapClassGenerator.PutLineInBlock` | src/main/java/com/microsoft/jfr/generation/JfrSettingsAsMapClassGenerator.java:36-45 | Every setting of every event has its put line in the block |
| `JfrSettingsAsMapClassGenerator.SettingPutGenerated` | src/main/java/com/microsoft/jfr/generation/JfrSettingsAsMapClassGenerator.java:32-48 | The generated text contains `put("<event>#<name>","<value>")` for every setting of every event, for example `put("jdk.ThreadAllocationStatistics#enabled","true")` |
| `JfrSettingsAsMapClassGenerator.PutStatementAmbiguous` | src/main/java/com/microsoft/jfr/generation/JfrSettingsAsMapClassGenerator.java:41 | Names and values are inserted without escaping, so moving `","` from the value into the name gives the same statement |
| `JfrSettingsAsMapClassGenerator.ClassNameFilled` | src/main/java/com/microsoft/jfr/generation/JfrSettingsAsMapClassGenerator.java:47 | Replacing `CLASS_NAME` puts the class name where the marker is and changes nothing else |
| `JfrSettingsAsMapClassGenerator.BlockFilled` | src/main/java/com/microsoft/jfr/generation/JfrSettingsAsMapClassGenerator.java:47-48 | Replacing `MAP_PUT` puts the block where the marker is, and into the class name wherever it holds the marker |
| `JfrSettingsAsMapClassGenerator.TemplateFilled` | src/main/java/com/microsoft/jfr/generation/JfrSettingsAsMapClassGenerator.java:13-30 | The template with both markers replaced in turn is the fixed text with the class name and the block in place |
| `JavaLang.Show` | src/main/java/com/microsoft/jfr/generation/Setting.java:14-17 | String concatenation inserts a reference's text, or "null" for a null reference |
| `JavaLang.TrimBlank` | src/main/java/com/microsoft/jfr/FlightRecorderConnection.java:124 | `s.trim().length() == 0` holds exactly when every character of `s` is at most U+0020 |
| `JavaLang.TrimPadded` | src/main/java/com/microsoft/jfr/RecordingOptions.java:128 | `trim` removes exactly the padding around a text that starts and ends with a visible character |
| `JavaLang.ParseLong` | src/main/java/com/microsoft/jfr/RecordingOptions.java:129 | `Long.parseLong` accepts only an optional sign and decimal digits, and only values within the range of a long |
| `JavaLang.ParseLongToString` | src/main/java/com/microsoft/jfr/RecordingOptions.java:136-139 | `Long.parseLong(Long.toString(n)) == n` for every long `n` |
| `JavaLang.LongToStringCanonical` | src/main/java/com/microsoft/jfr/RecordingOptions.java:369 | `Long.toString` of a non-negative value has no sign and no leading zero |
| `JavaLang.BooleanValueOf` | src/main/java/com/microsoft/jfr/RecordingOptions.java:150-156 | `Boolean.valueOf(s).toString()` is "true" exactly for a non-null `s` equal to "true" ignoring case, and "false" otherwise |

## Left out

- The JMX transport itself (`invoke`, `getObjectInstance`, the open-MBean classes) is an MBean server whose replies are arbitrary. What the remote side does with a call is not modelled.
- `new ObjectName(...)` is modelled only for names of the form `domain:key=value`, which covers the two constant names. The full object-name grammar is not modelled.
- The iteration order of a `HashMap` (the options passed to `jfrStart`, the rows of `makeOpenData`) is not known to the program. It is a parameter (`order`), or the result of a choice that lists every key once.
- `JfrStream` is not part of this model. The stream `getStream` returns is a value naming the MBean and the stream id; reading blocks and the default block size (the two-argument `getStream`) are left out.
- `Instant.toString()` is not modelled. Stream bounds are opaque strings.
- Atomicity: `AtomicReference.getAndUpdate`/`getAndSet` and the `volatile` id are one sequential step each. Races between threads are not modelled.
- SAX parsing is left out (`JfcParser.parse` hands a file path to a SAX parser, and its checked exceptions are wrapped in RuntimeException). The handler receives an explicit sequence of callbacks, and a callback's character data is the `ch[start..start+length]` slice as a string.
- File I/O is left out: reading the `.jfc` stream, where only the line splitting and joining are modelled, and writing the generated class file. `System.lineSeparator()` is a parameter of the generator.
- `JfcToJava`, the samples and the tests are not part of this model. The tests are cited only where a lemma restates one of their examples.
- `newRecording(options, configuration)` on either connection only constructs a `Recording`; it is `Recording.Recording.constructor`.
- `getConfiguration`, `getId`, `getState` and the option getters return a field. They are the datatype fields, `GetId`, `GetState` and `RecordingOptions.Get`.
- Characters are compared as code units. `Long.parseLong` accepts only ASCII digits, although Java also accepts other Unicode digits. `equalsIgnoreCase` folds only ASCII letters.
- Messages of NullPointerExceptions thrown by dereferencing null and of InternalError are not tracked. A NumberFormatException from `Long.parseLong` carries the rejected text. When `maxSize` or `duration` wrap it in an IllegalArgumentException, the message is the JDK's usual `java.lang.NumberFormatException: For input string: "<text>"`. Other JDK message forms (an empty string, or a radix) are not modelled.
- OpenDataException is never thrown by `makeOpenData` in the model, because the row type is fixed and map keys are distinct.
- `Connection.ConnectDiagnosticCommand`: the JfrStreamingException for a malformed DiagnosticCommand name is unreachable, because the name is well-formed (`Connection.DiagnosticCommandObjectNameWellFormed`).
- The `null` arguments and signature of `vmCheckCommercialFeatures` are modelled as empty lists.
- The FlightRecorderMXBean backend treats a reply to `getObjectInstance` that is not an object instance as a NullPointerException. `Connection.InstanceName` states only that the lookup then fails.
- `Connection.FlightRecorderConnection.GetStream` states on the MXBean protocol only whether the stream was opened. The stream itself is stated by `MxBeanBackend.GetStream`.
