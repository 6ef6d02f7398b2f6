/**
 * The FlightRecorderMXBean backend: each recording operation becomes one or
 * a few `invoke` calls on the `jdk.management.jfr:type=FlightRecorder` MBean.
 * Checked JMX failures other than IOException are rethrown as InternalError.
 */
module MxBeanBackend {
  import opened Wrappers
  import opened JavaLang
  import opened Exceptions
  import opened OpenDataUtils
  import opened Jmx
  import opened RecordingOptions
  import opened RecordingConfiguration

  const JFR_OBJECT_NAME: string := "jdk.management.jfr" + ":" + "type" + "=" + "FlightRecorder"

  const SET_PREDEFINED_CONFIGURATION: string := "setPredefinedConfiguration"

  const LONG_TYPE: string := "long"
  const BOOLEAN_TYPE: string := "boolean"
  const STRING_TYPE: string := "java.lang.String"
  const TABULAR_DATA_TYPE: string := "javax.management.openmbean.TabularData"

  /** A recording's data as a stream read block by block from the MBean. */
  datatype RecordingStream = JfrStream(flightRecorder: string, streamId: int)

  /**
   * The exception a failed `invoke` surfaces as: IOException, and the
   * unchecked RuntimeMBeanException, pass through; the other JMX exceptions
   * are wrapped in InternalError.
   */
  function Wrap(failure: RemoteFailure): (e: Error)
    ensures e.Propagated? <==> failure == IOException || failure == RuntimeMBeanException
    ensures e.Propagated? ==> e.failure == failure
    ensures !e.Propagated? ==> e == InternalError(Remote(failure))
  {
    if failure == IOException || failure == RuntimeMBeanException then Propagated(failure)
    else InternalError(Remote(failure))
  }

  /** The cast `(long) result`: unboxing a null throws NullPointerException, any other object ClassCastException. */
  function AsLong(v: Value): (r: Result<int, Error>)
    ensures r.Success? <==> v.LongValue?
    ensures v.LongValue? ==> r.value == v.n && IsLong(r.value)
    ensures v.Null? ==> r.Failure? && r.error.NullPointer?
    ensures !v.LongValue? && !v.Null? ==> r == Failure(ClassCast)
  {
    match v
    case LongValue(n) => Success(n)
    case Null => Failure(NullPointer(NO_MESSAGE))
    case _ => Failure(ClassCast)
  }

  /** The result of an operation whose call returns nothing. */
  function VoidResult(reply: Reply): (r: Outcome<Error>)
    ensures r.Pass? <==> reply.Returned?
  {
    match reply
    case Returned(_) => Pass
    case Threw(f) => Fail(Wrap(f))
  }

  /** The result of an operation whose call returns a `long`. */
  function LongResult(reply: Reply): (r: Result<int, Error>)
    ensures r.Success? <==> reply.Returned? && reply.value.LongValue?
    ensures r.Success? ==> r.value == reply.value.n
  {
    match reply
    case Returned(v) => AsLong(v)
    case Threw(f) => Failure(Wrap(f))
  }

  // ---------------------------------------------------------------- requests

  function NewRecordingRequest(flightRecorder: string): Request {
    Invoke(flightRecorder, "newRecording", [], [])
  }

  function StartRecordingRequest(flightRecorder: string, id: int): Request {
    Invoke(flightRecorder, "startRecording", [LongArg(id)], [LONG_TYPE])
  }

  function StopRecordingRequest(flightRecorder: string, id: int): Request {
    Invoke(flightRecorder, "stopRecording", [LongArg(id)], [LONG_TYPE])
  }

  function CopyToRequest(flightRecorder: string, id: int, outputFile: string): Request {
    Invoke(flightRecorder, "copyTo", [LongArg(id), StringArg(outputFile)], [LONG_TYPE, STRING_TYPE])
  }

  function CloneRecordingRequest(flightRecorder: string, id: int, stop: bool): Request {
    Invoke(flightRecorder, "cloneRecording", [LongArg(id), BooleanArg(stop)], [LONG_TYPE, BOOLEAN_TYPE])
  }

  function OpenStreamRequest(flightRecorder: string, id: int, streamOptions: map<string, string>): Request {
    Invoke(flightRecorder, "openStream", [LongArg(id), TableArg(OpenData(streamOptions))], [LONG_TYPE, TABULAR_DATA_TYPE])
  }

  function CloseRecordingRequest(flightRecorder: string, id: int): Request {
    Invoke(flightRecorder, "closeRecording", [LongArg(id)], [LONG_TYPE])
  }

  /**
   * `setPredefinedConfiguration`, sent only for a configuration whose name
   * is not blank (`trim().length() > 0`, see `TrimBlank`).
   */
  function ConfigurationCall(flightRecorder: string, id: int, configuration: Option<RecordingConfiguration>): (calls: seq<Request>)
    ensures |calls| <= 1
    ensures |calls| == 1 <==> configuration.Some? && configuration.value.Predefined? && !IsBlank(configuration.value.name)
    ensures configuration.None? || !configuration.value.Predefined? ==> calls == []
  {
    if configuration.Some? && configuration.value.ConfigurationName().Some?
       && !IsBlank(configuration.value.ConfigurationName().value) then
      [Invoke(flightRecorder, SET_PREDEFINED_CONFIGURATION,
              [LongArg(id), StringArg(configuration.value.ConfigurationName().value)], [LONG_TYPE, STRING_TYPE])]
    else
      []
  }

  /** `setRecordingOptions`, sent only for options whose map is not empty. */
  function OptionsCall(flightRecorder: string, id: int, options: Option<RecordingOptions>): (calls: seq<Request>)
    ensures |calls| <= 1
    ensures |calls| == 1 <==> options.Some? && |options.value.recordingOptions| > 0
    ensures |calls| == 1 ==> calls[0].Invoke? && calls[0].params == [LongArg(id), TableArg(OpenData(options.value.recordingOptions))]
  {
    if options.Some? && |options.value.recordingOptions| > 0 then
      [Invoke(flightRecorder, "setRecordingOptions",
              [LongArg(id), TableArg(OpenData(options.value.recordingOptions))], [LONG_TYPE, TABULAR_DATA_TYPE])]
    else
      []
  }

  /** The calls `startRecording` makes once `newRecording` has answered `id`. */
  function StartPlan(flightRecorder: string, id: int, options: Option<RecordingOptions>,
                     configuration: Option<RecordingConfiguration>): seq<Request>
  {
    [NewRecordingRequest(flightRecorder)] + ConfigurationCall(flightRecorder, id, configuration)
      + OptionsCall(flightRecorder, id, options) + [StartRecordingRequest(flightRecorder, id)]
  }

  /** Where each call lies in the start plan. */
  lemma StartPlanShape(flightRecorder: string, id: int, options: Option<RecordingOptions>,
                       configuration: Option<RecordingConfiguration>)
    ensures var plan := StartPlan(flightRecorder, id, options, configuration);
      var c := |ConfigurationCall(flightRecorder, id, configuration)|;
      && |plan| == 2 + c + |OptionsCall(flightRecorder, id, options)|
      && plan[0] == NewRecordingRequest(flightRecorder)
      && (c == 1 ==> plan[1] == ConfigurationCall(flightRecorder, id, configuration)[0])
      && (|OptionsCall(flightRecorder, id, options)| == 1 ==> plan[1 + c] == OptionsCall(flightRecorder, id, options)[0])
      && plan[|plan| - 1] == StartRecordingRequest(flightRecorder, id)
  {
  }

  /** The result of `startRecording` once its last call has answered. */
  function PlanResult(last: Reply, id: int): Result<int, Error>
  {
    match last
    case Threw(f) => Failure(Wrap(f))
    case Returned(_) => Success(id)
  }

  /**
   * What `startRecording` did, given the exchanges it had with the server:
   * `newRecording` first; a failure or a reply that is not a `long` ends it;
   * otherwise the plan for the returned id is executed up to its first
   * failure, and the id is returned when none failed.
   */
  ghost predicate StartSpec(flightRecorder: string, options: Option<RecordingOptions>,
                            configuration: Option<RecordingConfiguration>, exchanges: seq<Exchange>, r: Result<int, Error>)
  {
    && |exchanges| > 0
    && exchanges[0].request == NewRecordingRequest(flightRecorder)
    && var created := LongResult(exchanges[0].reply);
       if created.Failure? then
         |exchanges| == 1 && r == Failure(created.error)
       else
         && Executed(StartPlan(flightRecorder, created.value, options, configuration), exchanges)
         && r == PlanResult(exchanges[|exchanges| - 1].reply, created.value)
  }

  // ---------------------------------------------------------------- operations

  /** `startRecording`: create, configure and start a recording; returns the id `newRecording` answered. */
  method StartRecording(server: MBeanServer, flightRecorder: string, options: Option<RecordingOptions>,
                        configuration: Option<RecordingConfiguration>) returns (r: Result<int, Error>)
    modifies server
    ensures Extends(old(server.log), server.log)
    ensures StartSpec(flightRecorder, options, configuration, server.log[|old(server.log)|..], r)
  {
    ghost var before := server.log;
    var reply := server.Send(NewRecordingRequest(flightRecorder));
    var created := LongResult(reply);
    if created.Failure? {
      assert server.log[|before|..] == [Exchange(NewRecordingRequest(flightRecorder), reply)];
      return Failure(created.error);
    }
    var id := created.value;
    ghost var plan := StartPlan(flightRecorder, id, options, configuration);
    ghost var first := Exchange(NewRecordingRequest(flightRecorder), reply);
    Begin(before, plan, first, server.log);
    r := ConfigureAndStart(server, flightRecorder, id, options, configuration, before, plan, first);
    StartEnded(flightRecorder, options, configuration, first, server.log[|before|..], r);
  }

  /** The calls of `startRecording` after `newRecording` answered `id`. */
  method ConfigureAndStart(server: MBeanServer, flightRecorder: string, id: int, options: Option<RecordingOptions>,
                           configuration: Option<RecordingConfiguration>, ghost before: seq<Exchange>,
                           ghost plan: seq<Request>, ghost first: Exchange) returns (r: Result<int, Error>)
    requires plan == StartPlan(flightRecorder, id, options, configuration)
    requires Progress(before, plan, 1, server.log) && server.log[|before|] == first
    modifies server
    ensures Extends(before, server.log) && Executed(plan, server.log[|before|..])
    ensures server.log[|before|] == first
    ensures r == PlanResult(server.log[|server.log| - 1].reply, id)
  {
    var failure := SetConfiguration(server, flightRecorder, id, options, configuration, before, plan, first);
    if failure.Some? {
      return PlanResult(Threw(failure.value), id);
    }
    r := OptionsAndStart(server, flightRecorder, id, options, configuration, before, plan, first);
  }

  /** The calls of `startRecording` once the configuration, if any, was set. */
  method OptionsAndStart(server: MBeanServer, flightRecorder: string, id: int, options: Option<RecordingOptions>,
                         configuration: Option<RecordingConfiguration>, ghost before: seq<Exchange>,
                         ghost plan: seq<Request>, ghost first: Exchange) returns (r: Result<int, Error>)
    requires plan == StartPlan(flightRecorder, id, options, configuration)
    requires Progress(before, plan, 1 + |ConfigurationCall(flightRecorder, id, configuration)|, server.log)
    requires server.log[|before|] == first
    modifies server
    ensures Extends(before, server.log) && Executed(plan, server.log[|before|..])
    ensures server.log[|before|] == first
    ensures r == PlanResult(server.log[|server.log| - 1].reply, id)
  {
    var failure := SetOptions(server, flightRecorder, id, options, configuration, before, plan, first);
    if failure.Some? {
      return PlanResult(Threw(failure.value), id);
    }
    StartPlanShape(flightRecorder, id, options, configuration);
    var reply := SendNext(server, StartRecordingRequest(flightRecorder, id), before, plan, |plan| - 1);
    r := PlanResult(reply, id);
  }

  /** `setPredefinedConfiguration`, when the configuration has a name that is not blank. */
  method SetConfiguration(server: MBeanServer, flightRecorder: string, id: int, options: Option<RecordingOptions>,
                          configuration: Option<RecordingConfiguration>, ghost before: seq<Exchange>,
                          ghost plan: seq<Request>, ghost first: Exchange) returns (failure: Option<RemoteFailure>)
    requires plan == StartPlan(flightRecorder, id, options, configuration)
    requires Progress(before, plan, 1, server.log) && server.log[|before|] == first
    modifies server
    ensures |server.log| > |before| && server.log[|before|] == first
    ensures failure.None? ==> Progress(before, plan, 1 + |ConfigurationCall(flightRecorder, id, configuration)|, server.log)
    ensures failure.Some? ==> Extends(before, server.log) && Executed(plan, server.log[|before|..])
                              && server.log[|server.log| - 1].reply == Threw(failure.value)
  {
    failure := None;
    if configuration.Some? {
      var name := configuration.value.ConfigurationName();
      if name.Some? && !IsBlank(name.value) {
        StartPlanShape(flightRecorder, id, options, configuration);
        var reply := SendNext(server, Invoke(flightRecorder, SET_PREDEFINED_CONFIGURATION,
                                             [LongArg(id), StringArg(name.value)], [LONG_TYPE, STRING_TYPE]), before, plan, 1);
        if reply.Threw? {
          failure := Some(reply.failure);
        }
      }
    }
  }

  /** `setRecordingOptions`, when the options map is not empty. */
  method SetOptions(server: MBeanServer, flightRecorder: string, id: int, options: Option<RecordingOptions>,
                    configuration: Option<RecordingConfiguration>, ghost before: seq<Exchange>,
                    ghost plan: seq<Request>, ghost first: Exchange) returns (failure: Option<RemoteFailure>)
    requires plan == StartPlan(flightRecorder, id, options, configuration)
    requires Progress(before, plan, 1 + |ConfigurationCall(flightRecorder, id, configuration)|, server.log)
    requires server.log[|before|] == first
    modifies server
    ensures |server.log| > |before| && server.log[|before|] == first
    ensures failure.None? ==> Progress(before, plan, |plan| - 1, server.log)
    ensures failure.Some? ==> Extends(before, server.log) && Executed(plan, server.log[|before|..])
                              && server.log[|server.log| - 1].reply == Threw(failure.value)
  {
    failure := None;
    ghost var sent := 1 + |ConfigurationCall(flightRecorder, id, configuration)|;
    if options.Some? {
      var recordingOptions := options.value.recordingOptions;
      if |recordingOptions| > 0 {
        var table := MakeOpenData(recordingOptions);
        StartPlanShape(flightRecorder, id, options, configuration);
        var reply := SendNext(server, Invoke(flightRecorder, "setRecordingOptions",
                                             [LongArg(id), TableArg(table)], [LONG_TYPE, TABULAR_DATA_TYPE]), before, plan, sent);
        if reply.Threw? {
          failure := Some(reply.failure);
        }
      }
    }
  }

  /** Sends the next request of a plan whose earlier requests all returned. */
  method SendNext(server: MBeanServer, request: Request, ghost before: seq<Exchange>, ghost plan: seq<Request>,
                  ghost sent: nat) returns (reply: Reply)
    requires Progress(before, plan, sent, server.log) && sent < |plan| && request == plan[sent]
    modifies server
    ensures server.log == old(server.log) + [Exchange(request, reply)]
    ensures |server.log| == |old(server.log)| + 1 && server.log[|server.log| - 1].reply == reply
    ensures reply.Returned? ==> Progress(before, plan, sent + 1, server.log)
    ensures reply.Threw? || sent + 1 == |plan| ==>
      Extends(before, server.log) && Executed(plan, server.log[|before|..])
  {
    ghost var log := server.log;
    reply := server.Send(request);
    Step(before, plan, sent, log, reply, server.log);
  }

  /**
   * The first `sent` requests of `plan` were sent after `before`, in order,
   * and all returned.
   */
  ghost predicate Progress(before: seq<Exchange>, plan: seq<Request>, sent: nat, log: seq<Exchange>) {
    && sent <= |plan|
    && |log| == |before| + sent
    && log[..|before|] == before
    && Requests(log[|before|..]) == plan[..sent]
    && forall i :: |before| <= i < |log| ==> log[i].reply.Returned?
  }

  lemma Begin(before: seq<Exchange>, plan: seq<Request>, first: Exchange, log: seq<Exchange>)
    requires |plan| > 0 && first.request == plan[0] && first.reply.Returned?
    requires log == before + [first]
    ensures Progress(before, plan, 1, log)
    ensures log[|before|] == first
  {
    assert log[|before|..] == [first];
  }

  /** Sending the next request of the plan: the run goes on if it returned, and is over if it failed. */
  lemma Step(before: seq<Exchange>, plan: seq<Request>, sent: nat, log: seq<Exchange>, reply: Reply, next: seq<Exchange>)
    requires Progress(before, plan, sent, log) && sent < |plan|
    requires next == log + [Exchange(plan[sent], reply)]
    ensures next[..|log|] == log
    ensures reply.Returned? ==> Progress(before, plan, sent + 1, next)
    ensures reply.Threw? || sent + 1 == |plan| ==>
      Extends(before, next) && Executed(plan, next[|before|..]) && next[|next| - 1].reply == reply
  {
    var ex := next[|before|..];
    assert ex == log[|before|..] + [Exchange(plan[sent], reply)];
    RequestsAppend(log[|before|..], [Exchange(plan[sent], reply)]);
    assert plan[..sent + 1] == plan[..sent] + [plan[sent]];
    assert Requests(ex) == plan[..sent + 1];
    assert next[..|before|] == log[..|before|];
    if sent + 1 == |plan| {
      assert plan[..sent + 1] == plan;
    }
  }

  /** A run of the start plan that is over meets the specification of `startRecording`. */
  lemma StartEnded(flightRecorder: string, options: Option<RecordingOptions>, configuration: Option<RecordingConfiguration>,
                   first: Exchange, exchanges: seq<Exchange>, r: Result<int, Error>)
    requires first.request == NewRecordingRequest(flightRecorder) && LongResult(first.reply).Success?
    requires |exchanges| > 0 && exchanges[0] == first
    requires Executed(StartPlan(flightRecorder, LongResult(first.reply).value, options, configuration), exchanges)
    requires r == PlanResult(exchanges[|exchanges| - 1].reply, LongResult(first.reply).value)
    ensures StartSpec(flightRecorder, options, configuration, exchanges, r)
  {
  }

  lemma {:induction false} RequestsAppend(a: seq<Exchange>, b: seq<Exchange>)
    ensures Requests(a + b) == Requests(a) + Requests(b)
  {
    var r := Requests(a + b);
    assert |r| == |Requests(a) + Requests(b)|;
    forall i | 0 <= i < |r| ensures r[i] == (Requests(a) + Requests(b))[i] {
      if i < |a| {
        assert (a + b)[i] == a[i];
      } else {
        assert (a + b)[i] == b[i - |a|];
      }
    }
  }

  // ---------------------------------------------------------------- properties of start

  /**
   * A start that succeeded sent exactly the plan for the id it returned
   * (`newRecording` first, `startRecording` with that id last) and every
   * call answered.
   */
  lemma StartSucceeded(flightRecorder: string, options: Option<RecordingOptions>,
                       configuration: Option<RecordingConfiguration>, exchanges: seq<Exchange>, id: int)
    requires StartSpec(flightRecorder, options, configuration, exchanges, Success(id))
    ensures Requests(exchanges) == StartPlan(flightRecorder, id, options, configuration)
    ensures forall i :: 0 <= i < |exchanges| ==> exchanges[i].reply.Returned?
  {
    assert LongResult(exchanges[0].reply) == Success(id);
    SucceededRun(StartPlan(flightRecorder, id, options, configuration), exchanges);
  }

  /** A run of a plan whose last call answered is the whole plan. */
  lemma SucceededRun(plan: seq<Request>, exchanges: seq<Exchange>)
    requires Executed(plan, exchanges) && LastReply(exchanges).Returned?
    ensures Requests(exchanges) == plan
    ensures forall i :: 0 <= i < |exchanges| ==> exchanges[i].reply.Returned?
  {
    assert plan[..|exchanges|] == plan;
  }

  /** A start whose `newRecording` failed, or answered something other than a `long`, sent nothing else. */
  lemma StartFailedEarly(flightRecorder: string, options: Option<RecordingOptions>,
                         configuration: Option<RecordingConfiguration>, exchanges: seq<Exchange>, r: Result<int, Error>)
    requires StartSpec(flightRecorder, options, configuration, exchanges, r)
    requires LongResult(exchanges[0].reply).Failure?
    ensures |exchanges| == 1 && r.Failure?
  {
  }

  /** Options produced by the builder always hold `disk`, so starting with them always sends `setRecordingOptions`. */
  lemma BuiltOptionsAreSent(flightRecorder: string, id: int, built: RecordingOptions, builder: map<OptionKey, string>)
    requires IsSnapshotOf(built.recordingOptions, builder)
    ensures |OptionsCall(flightRecorder, id, Some(built))| == 1
  {
    SnapshotHoldsDisk(built.recordingOptions, builder);
  }

  /** A predefined configuration whose name is not blank, such as "default" or "profile", is set by name. */
  lemma ConfigurationIsSet(flightRecorder: string, id: int, name: string)
    requires Trim(name) != []
    ensures ConfigurationCall(flightRecorder, id, Some(Predefined(name)))
         == [Invoke(flightRecorder, SET_PREDEFINED_CONFIGURATION, [LongArg(id), StringArg(name)], [LONG_TYPE, STRING_TYPE])]
  {
    TrimBlank(name);
  }

  /** A predefined configuration whose name `trim` empties is not sent at all. */
  lemma BlankConfigurationIsSkipped(flightRecorder: string, id: int, name: string)
    requires Trim(name) == []
    ensures ConfigurationCall(flightRecorder, id, Some(Predefined(name))) == []
  {
    TrimBlank(name);
  }

  // ---------------------------------------------------------------- single-call operations

  /** `stopRecording`: one `stopRecording(id)` call. */
  method StopRecording(server: MBeanServer, flightRecorder: string, id: int) returns (r: Outcome<Error>)
    modifies server
    ensures |server.log| > 0
    ensures server.log == old(server.log) + [Exchange(StopRecordingRequest(flightRecorder, id), LastReply(server.log))]
    ensures r == VoidResult(LastReply(server.log))
  {
    var reply := server.Send(StopRecordingRequest(flightRecorder, id));
    r := VoidResult(reply);
  }

  /** `dumpRecording`: one `copyTo(id, outputFile)` call. */
  method DumpRecording(server: MBeanServer, flightRecorder: string, id: int, outputFile: string) returns (r: Outcome<Error>)
    modifies server
    ensures |server.log| > 0
    ensures server.log == old(server.log) + [Exchange(CopyToRequest(flightRecorder, id, outputFile), LastReply(server.log))]
    ensures r == VoidResult(LastReply(server.log))
  {
    var reply := server.Send(CopyToRequest(flightRecorder, id, outputFile));
    r := VoidResult(reply);
  }

  /** `cloneRecording`: one `cloneRecording(id, stop)` call; the new id is what it answers. */
  method CloneRecording(server: MBeanServer, flightRecorder: string, id: int, stop: bool) returns (r: Result<int, Error>)
    modifies server
    ensures |server.log| > 0
    ensures server.log == old(server.log) + [Exchange(CloneRecordingRequest(flightRecorder, id, stop), LastReply(server.log))]
    ensures r == LongResult(LastReply(server.log))
  {
    var reply := server.Send(CloneRecordingRequest(flightRecorder, id, stop));
    r := LongResult(reply);
  }

  /** `closeRecording`: one `closeRecording(id)` call. */
  method CloseRecording(server: MBeanServer, flightRecorder: string, id: int) returns (r: Outcome<Error>)
    modifies server
    ensures |server.log| > 0
    ensures server.log == old(server.log) + [Exchange(CloseRecordingRequest(flightRecorder, id), LastReply(server.log))]
    ensures r == VoidResult(LastReply(server.log))
  {
    var reply := server.Send(CloseRecordingRequest(flightRecorder, id));
    r := VoidResult(reply);
  }

  // ---------------------------------------------------------------- streams

  /** The options of `openStream`: each bound that is given, and a positive block size in decimal. */
  function StreamOptionsOf(startTime: JString, endTime: JString, blockSize: int): map<string, string>
  {
    (if startTime.Some? then map["startTime" := startTime.value] else map[])
    + (if endTime.Some? then map["endTime" := endTime.value] else map[])
    + (if blockSize > 0 then map["blockSize" := LongToString(blockSize)] else map[])
  }

  /** The options map `getStream` fills before converting it to a table. */
  method StreamOptions(startTime: JString, endTime: JString, blockSize: int) returns (options: map<string, string>)
    ensures options == StreamOptionsOf(startTime, endTime, blockSize)
  {
    options := map[];
    if startTime.Some? {
      options := options["startTime" := startTime.value];
    }
    if endTime.Some? {
      options := options["endTime" := endTime.value];
    }
    if blockSize > 0 {
      options := options["blockSize" := LongToString(blockSize)];
    }
  }

  /**
   * The stream options hold a start time exactly when one is given, an end
   * time exactly when one is given, and a block size exactly when it is
   * positive, which the MBean reads back as the same `long`.
   */
  lemma StreamOptionsContents(startTime: JString, endTime: JString, blockSize: int)
    requires IsLong(blockSize)
    ensures var options := StreamOptionsOf(startTime, endTime, blockSize);
      && options.Keys <= {"startTime", "endTime", "blockSize"}
      && ("startTime" in options <==> startTime.Some?)
      && (startTime.Some? ==> options["startTime"] == startTime.value)
      && ("endTime" in options <==> endTime.Some?)
      && (endTime.Some? ==> options["endTime"] == endTime.value)
      && ("blockSize" in options <==> blockSize > 0)
      && (blockSize > 0 ==> ParseLong(options["blockSize"]) == Some(blockSize))
  {
    if blockSize > 0 {
      ParseLongToString(blockSize);
    }
  }

  /** `getStream`: one `openStream(id, options)` call; the stream reads the stream id it answers. */
  method GetStream(server: MBeanServer, flightRecorder: string, id: int, startTime: JString, endTime: JString,
                   blockSize: int) returns (r: Result<RecordingStream, Error>)
    modifies server
    ensures |server.log| > 0
    ensures server.log == old(server.log) + [Exchange(OpenStreamRequest(flightRecorder, id,
                                              StreamOptionsOf(startTime, endTime, blockSize)), LastReply(server.log))]
    ensures r.Success? <==> LongResult(LastReply(server.log)).Success?
    ensures r.Success? ==> r.value == JfrStream(flightRecorder, LongResult(LastReply(server.log)).value)
    ensures r.Failure? ==> r.error == LongResult(LastReply(server.log)).error
  {
    var options := StreamOptions(startTime, endTime, blockSize);
    var streamOptions := MakeOpenData(options);
    var reply := server.Send(Invoke(flightRecorder, "openStream", [LongArg(id), TableArg(streamOptions)],
                                    [LONG_TYPE, TABULAR_DATA_TYPE]));
    var streamId := LongResult(reply);
    if streamId.Failure? {
      return Failure(streamId.error);
    }
    r := Success(JfrStream(flightRecorder, streamId.value));
  }
}
