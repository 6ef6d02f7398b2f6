/**
 * The Java 8 backend: Flight Recorder controlled through the diagnostic
 * commands `jfrStart`, `jfrStop` and `jfrDump` of the DiagnosticCommand
 * MBean. Every command takes one `String[]` of `key=value` arguments; the
 * recording id is read back out of the text `jfrStart` answers. Cloning,
 * streaming and closing a recording are not available.
 */
module DiagnosticCommandBackend {
  import opened Wrappers
  import opened JavaLang
  import opened Exceptions
  import opened Jmx
  import opened RecordingOptions
  import opened RecordingConfiguration

  const DIAGNOSTIC_COMMAND_OBJECT_NAME: string := "com.sun.management" + ":" + "type" + "=" + "DiagnosticCommand"

  /** The signature of every diagnostic command: one array of strings. */
  const STRING_ARRAY_TYPE: string := "[Ljava.lang.String;"

  /** What `jfrStart` answers before the recording id. */
  const START_PREFIX: string := "Started recording "

  const START_FAILED: string := "Failed to start recording"
  const STOP_FAILED: string := "Failed to stop recording"
  const DUMP_FAILED: string := "Failed to dump recording"
  const ONLY_PREDEFINED: string :=
    "Java 8 currently only supports predefined configurations (default/profile)"
  const LOCKED: string :=
    "Unlocking commercial features may be required. This must be explicitly enabled by adding -XX:+UnlockCommercialFeatures"
  const UNLOCK_UNKNOWN: string :=
    "Unable to determine if commercial features are unlocked"

  /**
   * The checked failures of a remote call are wrapped in a
   * JfrStreamingException carrying the operation's message; a
   * RuntimeMBeanException is unchecked and propagates.
   */
  function Wrap(message: string, failure: RemoteFailure): (e: Error)
    ensures e.Propagated? <==> failure == RuntimeMBeanException
    ensures e.JfrStreaming? ==> e == JfrStreaming(message, Some(failure))
  {
    if failure == RuntimeMBeanException then Propagated(failure) else JfrStreaming(message, Some(failure))
  }

  /** The outcome of a command whose answer is ignored. */
  function CommandResult(message: string, reply: Reply): (r: Outcome<Error>)
    ensures r.Pass? <==> reply.Returned?
    ensures r.Fail? ==> r.error == Wrap(message, reply.failure)
  {
    match reply
    case Threw(f) => Fail(Wrap(message, f))
    case Returned(_) => Pass
  }

  function Command(objectName: string, command: string, arguments: seq<string>): Request {
    Invoke(objectName, command, [StringArrayArg(arguments)], [STRING_ARRAY_TYPE])
  }

  // ---------------------------------------------------------------- the arguments of jfrStart

  /** `order` lists the keys of a map once each: the order in which a HashMap hands out its entries. */
  predicate IsEnumeration(order: seq<string>, keys: set<string>) {
    && (forall i :: 0 <= i < |order| ==> order[i] in keys)
    && (forall k :: k in keys ==> k in order)
    && (forall i, j :: 0 <= i < j < |order| ==> order[i] != order[j])
  }

  /** The iteration order of a map's entries, which the map does not fix. */
  method EntryOrder(keys: set<string>) returns (order: seq<string>)
    ensures IsEnumeration(order, keys)
  {
    order := [];
    var remaining := keys;
    while remaining != {}
      invariant remaining <= keys
      invariant forall i :: 0 <= i < |order| ==> order[i] in keys && order[i] !in remaining
      invariant forall k :: k in keys ==> k in remaining || k in order
      invariant forall i, j :: 0 <= i < j < |order| ==> order[i] != order[j]
      decreases remaining
    {
      var key :| key in remaining;
      order := order + [key];
      remaining := remaining - {key};
    }
  }

  /** The `key=value` arguments of the options, in entry order, without `disk`, which Java 8 does not know. */
  function OptionArgs(options: map<string, string>, order: seq<string>): (args: seq<string>)
    requires forall i :: 0 <= i < |order| ==> order[i] in options
    ensures |args| + multiset(order)["disk"] == |order|
    ensures forall i :: 0 <= i < |order| && order[i] != "disk" ==> order[i] + "=" + options[order[i]] in args
    ensures forall a :: a in args ==> exists i :: 0 <= i < |order| && order[i] != "disk" && a == order[i] + "=" + options[order[i]]
  {
    if order == [] then
      []
    else
      var rest := OptionArgs(options, order[1..]);
      assert order == [order[0]] + order[1..];
      if order[0] == "disk" then
        rest
      else
        [order[0] + "=" + options[order[0]]] + rest
  }

  /**
   * `formOptions`: `settings=<name>` first, then one `key=value` argument
   * per option other than `disk`. Null options fail on dereference; a
   * configuration that is not predefined, null included, is refused.
   */
  function FormOptions(options: Option<RecordingOptions>, order: seq<string>,
                       configuration: Option<RecordingConfiguration>): (r: Result<seq<string>, Error>)
    requires options.Some? ==> IsEnumeration(order, options.value.recordingOptions.Keys)
    ensures options.None? ==> r == Failure(NullPointer(NO_MESSAGE))
    ensures options.Some? && (configuration.None? || !configuration.value.Predefined?) ==>
      r == Failure(JfrStreaming(ONLY_PREDEFINED, None))
    ensures r.Success? ==> configuration.Some? && configuration.value.Predefined?
    ensures r.Success? ==>
      && |r.value| == |options.value.recordingOptions| + 1 - (if "disk" in options.value.recordingOptions then 1 else 0)
      && r.value[0] == "settings=" + configuration.value.name
      && (forall k :: k in options.value.recordingOptions && k != "disk" ==>
            k + "=" + options.value.recordingOptions[k] in r.value[1..])
  {
    if options.None? then
      Failure(NullPointer(NO_MESSAGE))
    else if configuration.None? || !configuration.value.Predefined? then
      Failure(JfrStreaming(ONLY_PREDEFINED, None))
    else
      var m := options.value.recordingOptions;
      ArgumentsOfOptions(m, order);
      var args := OptionArgs(m, order);
      var r := ["settings=" + configuration.value.name] + args;
      assert r[1..] == args;
      Success(r)
  }

  /** One argument per option other than `disk`, each written `key=value`. */
  lemma ArgumentsOfOptions(m: map<string, string>, order: seq<string>)
    requires IsEnumeration(order, m.Keys)
    ensures |OptionArgs(m, order)| == |m| - (if "disk" in m then 1 else 0)
    ensures forall k :: k in m && k != "disk" ==> k + "=" + m[k] in OptionArgs(m, order)
  {
    EnumerationSize(order, m.Keys);
    var args := OptionArgs(m, order);
    forall k | k in m && k != "disk"
      ensures k + "=" + m[k] in args
    {
      var i :| 0 <= i < |order| && order[i] == k;
    }
  }

  /** An enumeration has one element per key, and names `disk` once exactly when it is a key. */
  lemma EnumerationSize(order: seq<string>, keys: set<string>)
    requires IsEnumeration(order, keys)
    ensures |order| == |keys|
    ensures multiset(order)["disk"] == if "disk" in keys then 1 else 0
  {
    var elements := set i | 0 <= i < |order| :: order[i];
    assert elements == keys;
    DistinctSize(order);
    DistinctCount(order, "disk");
  }

  lemma {:induction false} DistinctSize(order: seq<string>)
    requires forall i, j :: 0 <= i < j < |order| ==> order[i] != order[j]
    ensures |set i | 0 <= i < |order| :: order[i]| == |order|
  {
    if order != [] {
      var last := order[|order| - 1];
      var init := order[..|order| - 1];
      DistinctSize(init);
      var before := set i | 0 <= i < |init| :: init[i];
      assert (set i | 0 <= i < |order| :: order[i]) == before + {last};
      assert last !in before;
    }
  }

  lemma {:induction false} DistinctCount(order: seq<string>, k: string)
    requires forall i, j :: 0 <= i < j < |order| ==> order[i] != order[j]
    ensures multiset(order)[k] == if k in order then 1 else 0
  {
    if order != [] {
      var last := order[|order| - 1];
      var init := order[..|order| - 1];
      assert order == init + [last];
      DistinctCount(init, k);
      if k == last {
        assert k !in init;
      }
    }
  }

  /**
   * Options produced by the builder always hold `disk`, so Java 8 gets one
   * argument per option that differs from its default.
   */
  lemma BuiltOptionsArguments(built: RecordingOptions, builder: map<OptionKey, string>, order: seq<string>,
                              name: string)
    requires IsSnapshotOf(built.recordingOptions, builder)
    requires IsEnumeration(order, built.recordingOptions.Keys)
    ensures FormOptions(Some(built), order, Some(Predefined(name))).Success?
    ensures |FormOptions(Some(built), order, Some(Predefined(name))).value| == |built.recordingOptions|
  {
    SnapshotHoldsDisk(built.recordingOptions, builder);
  }

  // ---------------------------------------------------------------- the answer of jfrStart

  predicate OccursAt(s: string, t: string, i: nat) {
    i + |t| <= |s| && s[i..i + |t|] == t
  }

  /** The first position at or after `from` where `t` occurs in `s`. */
  function IndexOf(s: string, t: string, from: nat): (r: Option<nat>)
    ensures r.Some? ==> from <= r.value && OccursAt(s, t, r.value)
    ensures r.Some? ==> forall j :: from <= j < r.value ==> !OccursAt(s, t, j)
    ensures r.None? ==> forall j :: from <= j ==> !OccursAt(s, t, j)
    decreases |s| - from
  {
    if from + |t| > |s| then None
    else if OccursAt(s, t, from) then Some(from)
    else IndexOf(s, t, from + 1)
  }

  /**
   * What the pattern `Started recording (.+?)\. .*` (dot matching line
   * breaks) captures on its first match: the shortest non-empty text after
   * the first "Started recording " that is followed by ". ". A later
   * occurrence of the prefix cannot match where the first one did not.
   */
  function StartCapture(s: string): (r: Option<string>)
    ensures r.Some? ==> |r.value| > 0 && exists p: nat :: OccursAt(s, START_PREFIX + r.value + ". ", p)
    ensures (forall p: nat :: !OccursAt(s, START_PREFIX, p)) ==> r.None?
  {
    match IndexOf(s, START_PREFIX, 0)
    case None => None
    case Some(p) =>
      match IndexOf(s, ". ", p + |START_PREFIX| + 1)
      case None => None
      case Some(q) =>
        var n := |START_PREFIX|;
        assert OccursAt(s, START_PREFIX + s[p + n..q] + ". ", p) by {
          assert s[p..q + 2] == s[p..p + n] + s[p + n..q] + s[q..q + 2];
        }
        Some(s[p + n..q])
  }

  /** The id in the answer of `jfrStart`, as `Long.parseLong` reads the captured text. */
  function ParseStartResponse(response: string): (r: Result<int, Error>)
    ensures r.Success? ==> StartCapture(response).Some? && ParseLong(StartCapture(response).value) == Some(r.value)
    ensures r.Failure? ==> r.error == JfrStreaming(START_FAILED, None) || r.error.NumberFormat?
  {
    match StartCapture(response)
    case None => Failure(JfrStreaming(START_FAILED, None))
    case Some(name) =>
      match ParseLong(name)
      case None => Failure(NumberFormat(name))
      case Some(id) => Success(id)
  }

  /** The answer to `jfrStart`: a String is parsed, null fails on dereference, anything else fails the cast. */
  function StartResult(reply: Reply): (r: Result<int, Error>)
    ensures r.Success? ==>
              && reply.Returned? && reply.value.StringValue?
              && StartCapture(reply.value.s).Some?
              && ParseLong(StartCapture(reply.value.s).value) == Some(r.value)
    ensures reply.Threw? ==> r == Failure(Wrap(START_FAILED, reply.failure))
    ensures reply == Returned(Null) ==> r == Failure(NullPointer(NO_MESSAGE))
    ensures reply.Returned? && !reply.value.StringValue? && !reply.value.Null? ==> r == Failure(ClassCast)
  {
    match reply
    case Threw(f) => Failure(Wrap(START_FAILED, f))
    case Returned(Null) => Failure(NullPointer(NO_MESSAGE))
    case Returned(StringValue(s)) => ParseStartResponse(s)
    case Returned(_) => Failure(ClassCast)
  }

  /** The capture is the text between the prefix and the first ". " after it. */
  lemma CaptureOf(capture: string, rest: string)
    requires |capture| > 0 && forall i :: 0 <= i < |capture| ==> capture[i] != '.'
    ensures StartCapture(START_PREFIX + capture + ". " + rest) == Some(capture)
  {
    var s := START_PREFIX + capture + ". " + rest;
    var n := |START_PREFIX|;
    assert OccursAt(s, START_PREFIX, 0);
    forall j | n + 1 <= j < n + |capture| ensures !OccursAt(s, ". ", j) {
      assert s[j] == capture[j - n];
    }
    assert OccursAt(s, ". ", n + |capture|);
    assert s[n..n + |capture|] == capture;
  }

  /** Java 8 answers "Started recording <id>. ..." and the id is read back unchanged. */
  lemma StartedRecordingParsed(id: int, rest: string)
    requires IsLong(id)
    ensures ParseStartResponse(START_PREFIX + LongToString(id) + ". " + rest) == Success(id)
  {
    var text := LongToString(id);
    forall i | 0 <= i < |text| ensures text[i] != '.' {
      if id < 0 {
        assert text == "-" + DecimalDigits(-id);
        if i > 0 {
          assert text[i] == DecimalDigits(-id)[i - 1];
        }
      }
    }
    CaptureOf(text, rest);
    ParseLongToString(id);
  }

  /** The answer a Java 8 JVM gives for recording 99. */
  lemma StartedRecording99()
    ensures ParseStartResponse("Started recording 99. ") == Success(99)
  {
    assert LongToString(99) == "99";
    StartedRecordingParsed(99, "");
    assert START_PREFIX + "99" + ". " + "" == "Started recording 99. ";
  }

  /** A capture that is not a number fails with an unwrapped NumberFormatException carrying it. */
  lemma StartedRecordingNotANumber(capture: string, rest: string)
    requires |capture| > 0 && forall i :: 0 <= i < |capture| ==> capture[i] != '.'
    requires ParseLong(capture).None?
    ensures ParseStartResponse(START_PREFIX + capture + ". " + rest) == Failure(NumberFormat(capture))
  {
    CaptureOf(capture, rest);
  }

  /** Without a space after the dot there is no match: "Started recording 1." fails to start. */
  lemma StartedRecordingUnterminated(digits: string)
    requires |digits| > 0 && AllDigits(digits)
    ensures ParseStartResponse(START_PREFIX + digits + ".") == Failure(JfrStreaming(START_FAILED, None))
  {
    var s := START_PREFIX + digits + ".";
    var n := |START_PREFIX|;
    assert OccursAt(s, START_PREFIX, 0);
    forall j | n + 1 <= j ensures !OccursAt(s, ". ", j) {
      if j + 2 <= |s| {
        assert s[j] == digits[j - n];
      }
    }
  }

  // ---------------------------------------------------------------- operations

  /**
   * `startRecording`: the arguments are formed first, so a refused
   * configuration or null options fail without any remote call; otherwise
   * one `jfrStart` call, whose answer holds the id.
   */
  method StartRecording(server: MBeanServer, objectName: string, options: Option<RecordingOptions>,
                        configuration: Option<RecordingConfiguration>) returns (r: Result<int, Error>)
    modifies server
    ensures options.None? ==> server.log == old(server.log) && r == Failure(NullPointer(NO_MESSAGE))
    ensures options.Some? && (configuration.None? || !configuration.value.Predefined?) ==>
      server.log == old(server.log) && r == Failure(JfrStreaming(ONLY_PREDEFINED, None))
    ensures options.Some? && configuration.Some? && configuration.value.Predefined? ==>
      && |server.log| == |old(server.log)| + 1
      && server.log[..|old(server.log)|] == old(server.log)
      && (exists order :: IsEnumeration(order, options.value.recordingOptions.Keys) &&
            server.log[|server.log| - 1].request == Command(objectName, "jfrStart", FormOptions(options, order, configuration).value))
      && r == StartResult(LastReply(server.log))
  {
    var order: seq<string> := [];
    if options.Some? {
      order := EntryOrder(options.value.recordingOptions.Keys);
    }
    var arguments := FormOptions(options, order, configuration);
    if arguments.Failure? {
      return Failure(arguments.error);
    }
    var reply := server.Send(Command(objectName, "jfrStart", arguments.value));
    r := StartResult(reply);
  }

  /** `stopRecording`: `jfrStop` with the one argument `name=<id>`. */
  method StopRecording(server: MBeanServer, objectName: string, id: int) returns (r: Outcome<Error>)
    modifies server
    ensures |server.log| > 0
    ensures server.log == old(server.log) + [Exchange(Command(objectName, "jfrStop", ["name=" + LongToString(id)]),
                                                      LastReply(server.log))]
    ensures r == CommandResult(STOP_FAILED, LastReply(server.log))
  {
    var reply := server.Send(Command(objectName, "jfrStop", ["name=" + LongToString(id)]));
    r := CommandResult(STOP_FAILED, reply);
  }

  /** `dumpRecording`: `jfrDump` with the file name, the recording id and compression on. */
  method DumpRecording(server: MBeanServer, objectName: string, id: int, outputFile: string) returns (r: Outcome<Error>)
    modifies server
    ensures |server.log| > 0
    ensures server.log == old(server.log) + [Exchange(Command(objectName, "jfrDump",
      ["filename=" + outputFile, "recording=" + LongToString(id), "compress=true"]), LastReply(server.log))]
    ensures r == CommandResult(DUMP_FAILED, LastReply(server.log))
  {
    var reply := server.Send(Command(objectName, "jfrDump",
                                     ["filename=" + outputFile, "recording=" + LongToString(id), "compress=true"]));
    r := CommandResult(DUMP_FAILED, reply);
  }

  /** `cloneRecording` is not available on Java 8 and makes no remote call. */
  function CloneRecording(id: int, stop: bool): (r: Result<int, Error>)
    ensures r.Failure? && r.error.UnsupportedOperation?
  {
    Failure(UnsupportedOperation("Clone not supported on Java 8"))
  }

  /** `getStream` is not available on Java 8 and makes no remote call. */
  function GetStream(id: int, startTime: JString, endTime: JString, blockSize: int): (r: Outcome<Error>)
    ensures r.Fail? && r.error.UnsupportedOperation?
  {
    Fail(UnsupportedOperation("getStream not supported on Java 8"))
  }

  /** `closeRecording` is not available on Java 8 and makes no remote call. */
  function CloseRecording(id: int): (r: Outcome<Error>)
    ensures r.Fail? && r.error.UnsupportedOperation?
  {
    Fail(UnsupportedOperation("closeRecording not supported on Java 8"))
  }

  // ---------------------------------------------------------------- commercial features

  /** The `vmCheckCommercialFeatures` command, which takes no arguments. */
  function UnlockCheckRequest(objectName: string): Request {
    Invoke(objectName, "vmCheckCommercialFeatures", [], [])
  }

  /**
   * `assertCommercialFeaturesUnlocked`: a String answer must mention
   * "unlocked"; an answer of any other type, null included, passes.
   */
  function UnlockCheck(reply: Reply): (r: Outcome<Error>)
    ensures reply.Returned? ==> (r.Pass? <==> !reply.value.StringValue? || Contains(reply.value.s, "unlocked"))
    ensures reply.Returned? && r.Fail? ==> r.error == JfrStreaming(LOCKED, None)
    ensures reply.Threw? ==> r == Fail(Wrap(UNLOCK_UNKNOWN, reply.failure))
  {
    match reply
    case Threw(f) => Fail(Wrap(UNLOCK_UNKNOWN, f))
    case Returned(StringValue(s)) => if Contains(s, "unlocked") then Pass else Fail(JfrStreaming(LOCKED, None))
    case Returned(_) => Pass
  }

  /** Any answer that mentions "unlocked" passes, wherever it sits. */
  lemma UnlockedAnswerPasses(before: string, after: string)
    ensures UnlockCheck(Returned(StringValue(before + "unlocked" + after))) == Pass
  {
    ContainsInfix(before, "unlocked", after, "unlocked");
    assert Contains("unlocked", "unlocked") by {
      assert StartsWith("unlocked", "unlocked");
    }
  }

  /** The answer "locked" is refused. */
  lemma LockedAnswerFails()
    ensures UnlockCheck(Returned(StringValue("locked"))) == Fail(JfrStreaming(LOCKED, None))
  {
    assert !Contains("locked", "unlocked") by {
      NotContainedWhenShorter("locked", "unlocked");
    }
  }

  lemma {:induction false} NotContainedWhenShorter(s: string, t: string)
    requires |s| < |t|
    ensures !Contains(s, t)
    decreases |s|
  {
    if |s| > 0 {
      NotContainedWhenShorter(s[1..], t);
    }
  }
}
