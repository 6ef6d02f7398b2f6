/**
 * A connection to Flight Recorder in a JVM: the MBean server, the name of
 * the MBean found there, and which of the two protocols it speaks (the
 * FlightRecorderMXBean of newer JVMs, or the DiagnosticCommand MBean of
 * Java 8). Every backend operation a recording performs goes through it and
 * is recorded, with its arguments and outcome, in a ghost trace.
 */
module Connection {
  import opened Wrappers
  import opened JavaLang
  import opened Exceptions
  import opened Jmx
  import opened RecordingOptions
  import opened RecordingConfiguration
  import Mx = MxBeanBackend
  import Dcmd = DiagnosticCommandBackend

  datatype Protocol = MxBean | DiagnosticCommand

  /** One backend operation, its arguments and its outcome. */
  datatype BackendCall =
    | StartCall(options: Option<RecordingOptions>, configuration: Option<RecordingConfiguration>, started: Result<int, Error>)
    | StopCall(id: int, stopped: Outcome<Error>)
    | DumpCall(id: int, outputFile: string, dumped: Outcome<Error>)
    | CloneCall(id: int, stop: bool, cloned: Result<int, Error>)
    | StreamCall(id: int, startTime: JString, endTime: JString, blockSize: int, stream: Result<Mx.RecordingStream, Error>)
    | CloseCall(id: int, closed: Outcome<Error>)

  /**
   * What `getObjectInstance` gives the connection: the name of the MBean,
   * or the failure, which propagates unchanged. A null answer fails on
   * dereference.
   */
  function InstanceName(reply: Reply): (r: Result<string, Error>)
    ensures r.Success? <==> reply.Returned? && reply.value.ObjectInstance?
    ensures reply.Threw? ==> r == Failure(Propagated(reply.failure))
  {
    match reply
    case Threw(f) => Failure(Propagated(f))
    case Returned(ObjectInstance(name)) => Success(name)
    case Returned(_) => Failure(NullPointer(NO_MESSAGE))
  }

  /** The name of the FlightRecorder MBean parses, so the malformed-name handler of its `connect` is never reached. */
  lemma JfrObjectNameWellFormed()
    ensures WellFormedObjectName(Mx.JFR_OBJECT_NAME)
  {
    DomainAndProperty("jdk.management.jfr", "type", "FlightRecorder");
    assert "jdk.management.jfr" + ":" + "type" + "=" + "FlightRecorder" == Mx.JFR_OBJECT_NAME;
  }

  /** The name of the DiagnosticCommand MBean parses, so the malformed-name handler of its `connect` is never reached. */
  lemma DiagnosticCommandObjectNameWellFormed()
    ensures WellFormedObjectName(Dcmd.DIAGNOSTIC_COMMAND_OBJECT_NAME)
  {
    DomainAndProperty("com.sun.management", "type", "DiagnosticCommand");
    assert "com.sun.management" + ":" + "type" + "=" + "DiagnosticCommand" == Dcmd.DIAGNOSTIC_COMMAND_OBJECT_NAME;
  }

  /** `domain:key=value` is well-formed when no part holds a reserved character and key and value are not empty. */
  lemma DomainAndProperty(domain: string, key: string, value: string)
    requires forall i :: 0 <= i < |domain| ==> !Reserved(domain[i])
    requires |key| > 0 && forall i :: 0 <= i < |key| ==> !Reserved(key[i])
    requires |value| > 0 && forall i :: 0 <= i < |value| ==> !Reserved(value[i])
    ensures WellFormedObjectName(domain + ":" + key + "=" + value)
  {
    var name := domain + ":" + key + "=" + value;
    var property := key + "=" + value;
    assert name[|domain|] == ':';
    assert name[|domain| + 1..] == property;
    assert property[|key|] == '=';
    forall i | 0 <= i < |property| && i != |key| ensures !Reserved(property[i]) {
      if i > |key| {
        assert property[i] == value[i - |key| - 1];
      }
    }
  }

  class FlightRecorderConnection {
    const server: MBeanServer
    const protocol: Protocol
    const objectName: string
    ghost var calls: seq<BackendCall>

    constructor (server: MBeanServer, protocol: Protocol, objectName: string)
      ensures this.server == server && this.protocol == protocol && this.objectName == objectName
      ensures calls == []
    {
      this.server := server;
      this.protocol := protocol;
      this.objectName := objectName;
      calls := [];
    }

    /** `startRecording`: create, configure and start a recording; the result is its id. */
    method StartRecording(options: Option<RecordingOptions>, configuration: Option<RecordingConfiguration>)
      returns (r: Result<int, Error>)
      modifies this, server
      ensures calls == old(calls) + [StartCall(options, configuration, r)]
      ensures protocol.MxBean? ==>
        Extends(old(server.log), server.log)
        && Mx.StartSpec(objectName, options, configuration, server.log[|old(server.log)|..], r)
      ensures protocol.DiagnosticCommand? && options.None? ==>
        server.log == old(server.log) && r == Failure(NullPointer(NO_MESSAGE))
      ensures protocol.DiagnosticCommand? && options.Some? && (configuration.None? || !configuration.value.Predefined?) ==>
        server.log == old(server.log) && r == Failure(JfrStreaming(Dcmd.ONLY_PREDEFINED, None))
      ensures protocol.DiagnosticCommand? && options.Some? && configuration.Some? && configuration.value.Predefined? ==>
        && |server.log| == |old(server.log)| + 1
        && server.log[..|old(server.log)|] == old(server.log)
        && (exists order :: Dcmd.IsEnumeration(order, options.value.recordingOptions.Keys) &&
              server.log[|server.log| - 1].request == Dcmd.Command(objectName, "jfrStart", Dcmd.FormOptions(options, order, configuration).value))
        && r == Dcmd.StartResult(LastReply(server.log))
    {
      if protocol.MxBean? {
        r := Mx.StartRecording(server, objectName, options, configuration);
      } else {
        r := Dcmd.StartRecording(server, objectName, options, configuration);
      }
      calls := calls + [StartCall(options, configuration, r)];
    }

    /** `stopRecording`: one remote call. */
    method StopRecording(id: int) returns (r: Outcome<Error>)
      modifies this, server
      ensures calls == old(calls) + [StopCall(id, r)]
      ensures |server.log| == |old(server.log)| + 1 && server.log[..|old(server.log)|] == old(server.log)
      ensures protocol.MxBean? ==>
        server.log[|server.log| - 1].request == Mx.StopRecordingRequest(objectName, id)
        && r == Mx.VoidResult(LastReply(server.log))
      ensures protocol.DiagnosticCommand? ==>
        server.log[|server.log| - 1].request == Dcmd.Command(objectName, "jfrStop", ["name=" + LongToString(id)])
        && r == Dcmd.CommandResult(Dcmd.STOP_FAILED, LastReply(server.log))
    {
      if protocol.MxBean? {
        r := Mx.StopRecording(server, objectName, id);
      } else {
        r := Dcmd.StopRecording(server, objectName, id);
      }
      calls := calls + [StopCall(id, r)];
    }

    /** `dumpRecording`: one remote call. */
    method DumpRecording(id: int, outputFile: string) returns (r: Outcome<Error>)
      modifies this, server
      ensures calls == old(calls) + [DumpCall(id, outputFile, r)]
      ensures |server.log| == |old(server.log)| + 1 && server.log[..|old(server.log)|] == old(server.log)
      ensures protocol.MxBean? ==>
        server.log[|server.log| - 1].request == Mx.CopyToRequest(objectName, id, outputFile)
        && r == Mx.VoidResult(LastReply(server.log))
      ensures protocol.DiagnosticCommand? ==>
        server.log[|server.log| - 1].request
          == Dcmd.Command(objectName, "jfrDump", ["filename=" + outputFile, "recording=" + LongToString(id), "compress=true"])
        && r == Dcmd.CommandResult(Dcmd.DUMP_FAILED, LastReply(server.log))
    {
      if protocol.MxBean? {
        r := Mx.DumpRecording(server, objectName, id, outputFile);
      } else {
        r := Dcmd.DumpRecording(server, objectName, id, outputFile);
      }
      calls := calls + [DumpCall(id, outputFile, r)];
    }

    /** `cloneRecording`: one remote call, or none on Java 8, which refuses it. */
    method CloneRecording(id: int, stop: bool) returns (r: Result<int, Error>)
      modifies this, server
      ensures calls == old(calls) + [CloneCall(id, stop, r)]
      ensures protocol.MxBean? ==>
        |server.log| == |old(server.log)| + 1 && server.log[..|old(server.log)|] == old(server.log)
        && server.log[|server.log| - 1].request == Mx.CloneRecordingRequest(objectName, id, stop)
        && r == Mx.LongResult(LastReply(server.log))
      ensures protocol.DiagnosticCommand? ==>
        server.log == old(server.log) && r.Failure? && r.error.UnsupportedOperation?
    {
      if protocol.MxBean? {
        r := Mx.CloneRecording(server, objectName, id, stop);
      } else {
        r := Dcmd.CloneRecording(id, stop);
      }
      calls := calls + [CloneCall(id, stop, r)];
    }

    /** `getStream`: one remote call, or none on Java 8, which refuses it. */
    method GetStream(id: int, startTime: JString, endTime: JString, blockSize: int)
      returns (r: Result<Mx.RecordingStream, Error>)
      modifies this, server
      ensures calls == old(calls) + [StreamCall(id, startTime, endTime, blockSize, r)]
      ensures protocol.MxBean? ==>
        |server.log| == |old(server.log)| + 1 && server.log[..|old(server.log)|] == old(server.log)
        && server.log[|server.log| - 1].request
             == Mx.OpenStreamRequest(objectName, id, Mx.StreamOptionsOf(startTime, endTime, blockSize))
        && (r.Success? <==> Mx.LongResult(LastReply(server.log)).Success?)
      ensures protocol.DiagnosticCommand? ==>
        server.log == old(server.log) && r.Failure? && r.error.UnsupportedOperation?
    {
      if protocol.MxBean? {
        r := Mx.GetStream(server, objectName, id, startTime, endTime, blockSize);
      } else {
        r := Failure(Dcmd.GetStream(id, startTime, endTime, blockSize).error);
      }
      calls := calls + [StreamCall(id, startTime, endTime, blockSize, r)];
    }

    /** `closeRecording`: one remote call, or none on Java 8, which refuses it. */
    method CloseRecording(id: int) returns (r: Outcome<Error>)
      modifies this, server
      ensures calls == old(calls) + [CloseCall(id, r)]
      ensures protocol.MxBean? ==>
        |server.log| == |old(server.log)| + 1 && server.log[..|old(server.log)|] == old(server.log)
        && server.log[|server.log| - 1].request == Mx.CloseRecordingRequest(objectName, id)
        && r == Mx.VoidResult(LastReply(server.log))
      ensures protocol.DiagnosticCommand? ==>
        server.log == old(server.log) && r.Fail? && r.error.UnsupportedOperation?
    {
      if protocol.MxBean? {
        r := Mx.CloseRecording(server, objectName, id);
      } else {
        r := Dcmd.CloseRecording(id);
      }
      calls := calls + [CloseCall(id, r)];
    }
  }

  /**
   * `FlightRecorderConnection.connect`: a null server is refused; otherwise
   * the FlightRecorder MBean is looked up under its fixed name and the
   * connection speaks to the instance found.
   */
  method ConnectMxBean(server: MBeanServer?) returns (r: Result<FlightRecorderConnection, Error>)
    modifies server
    ensures server == null ==> r == Failure(NullPointer(NO_MESSAGE))
    ensures server != null ==>
      && |server.log| == |old(server.log)| + 1
      && server.log[..|old(server.log)|] == old(server.log)
      && server.log[|server.log| - 1].request == GetObjectInstance(Mx.JFR_OBJECT_NAME)
      && (r.Success? <==> InstanceName(LastReply(server.log)).Success?)
      && (r.Failure? ==> r.error == InstanceName(LastReply(server.log)).error && !r.error.InternalError?)
    ensures r.Success? ==>
      && fresh(r.value)
      && r.value.server == server
      && r.value.protocol == MxBean
      && r.value.objectName == InstanceName(LastReply(server.log)).value
      && r.value.calls == []
  {
    if server == null {
      return Failure(NullPointer(NO_MESSAGE));
    }
    var reply := server.Send(GetObjectInstance(Mx.JFR_OBJECT_NAME));
    var name := InstanceName(reply);
    if name.Failure? {
      return Failure(name.error);
    }
    var connection := new FlightRecorderConnection(server, MxBean, name.value);
    r := Success(connection);
  }

  /**
   * `FlightRecorderConnectionJava8.connect`: a null server is refused;
   * otherwise the DiagnosticCommand MBean is looked up, and a connection is
   * made only once the commercial features are known to be unlocked.
   */
  method ConnectDiagnosticCommand(server: MBeanServer?) returns (r: Result<FlightRecorderConnection, Error>)
    modifies server
    ensures server == null ==> r == Failure(NullPointer(NO_MESSAGE))
    ensures server != null ==>
      && |old(server.log)| < |server.log|
      && server.log[..|old(server.log)|] == old(server.log)
      && server.log[|old(server.log)|].request == GetObjectInstance(Dcmd.DIAGNOSTIC_COMMAND_OBJECT_NAME)
    ensures server != null && InstanceName(server.log[|old(server.log)|].reply).Failure? ==>
      |server.log| == |old(server.log)| + 1 && r == Failure(InstanceName(server.log[|old(server.log)|].reply).error)
    ensures server != null && InstanceName(server.log[|old(server.log)|].reply).Success? ==>
      var name := InstanceName(server.log[|old(server.log)|].reply).value;
      && |server.log| == |old(server.log)| + 2
      && server.log[|server.log| - 1].request == Dcmd.UnlockCheckRequest(name)
      && (r.Success? <==> Dcmd.UnlockCheck(LastReply(server.log)).Pass?)
      && (r.Failure? ==> r.error == Dcmd.UnlockCheck(LastReply(server.log)).error)
      && (r.Success? ==> r.value.objectName == name)
    ensures r.Success? ==>
      && fresh(r.value)
      && r.value.server == server
      && r.value.protocol == DiagnosticCommand
      && r.value.calls == []
  {
    if server == null {
      return Failure(NullPointer(NO_MESSAGE));
    }
    var instance := server.Send(GetObjectInstance(Dcmd.DIAGNOSTIC_COMMAND_OBJECT_NAME));
    var name := InstanceName(instance);
    if name.Failure? {
      return Failure(name.error);
    }
    var answer := server.Send(Dcmd.UnlockCheckRequest(name.value));
    var unlocked := Dcmd.UnlockCheck(answer);
    if unlocked.Fail? {
      return Failure(unlocked.error);
    }
    var connection := new FlightRecorderConnection(server, DiagnosticCommand, name.value);
    r := Success(connection);
  }
}
