/**
 * A recording and its life cycle: NEW until started, RECORDING until
 * stopped, STOPPED until started again, and CLOSED for good once closed.
 * Every operation checks the state first, then makes at most a fixed, small
 * number of calls on the connection, which records them in its trace.
 */
module Recording {
  import opened Wrappers
  import opened JavaLang
  import opened Exceptions
  import opened RecordingOptions
  import opened RecordingConfiguration
  import opened Connection
  import Mx = MxBeanBackend

  datatype State = NEW | RECORDING | STOPPED | CLOSED

  function StateName(s: State): string {
    match s
    case NEW => "NEW"
    case RECORDING => "RECORDING"
    case STOPPED => "STOPPED"
    case CLOSED => "CLOSED"
  }

  function StateNames(states: seq<State>): (names: seq<string>)
    ensures |names| == |states|
    ensures forall i :: 0 <= i < |states| ==> names[i] == StateName(states[i])
  {
    if states == [] then [] else [StateName(states[0])] + StateNames(states[1..])
  }

  // ---------------------------------------------------------------- the state machine

  /** The operations of a recording. */
  datatype Operation = StartOp | StopOp | DumpOp | CloneOp | StreamOp | CloseOp

  /** The state an operation leaves behind, whether or not its backend call then fails. */
  function Transition(s: State, op: Operation): State {
    match op
    case StartOp => if s == NEW || s == STOPPED then RECORDING else s
    case StopOp => if s == RECORDING then STOPPED else s
    case CloseOp => CLOSED
    case _ => s
  }

  /** The states in which an operation does not throw IllegalStateException. */
  function Expected(op: Operation): set<State> {
    match op
    case StartOp => {NEW, RECORDING, STOPPED}
    case StopOp => {NEW, RECORDING, STOPPED}
    case DumpOp => {RECORDING, STOPPED}
    case CloneOp => {RECORDING, STOPPED}
    case StreamOp => {STOPPED}
    case CloseOp => {NEW, RECORDING, STOPPED, CLOSED}
  }

  /** The states from which an operation reaches the backend at all. */
  function Calling(op: Operation): set<State> {
    match op
    case StartOp => {NEW, STOPPED}
    case StopOp => {RECORDING}
    case DumpOp => {RECORDING, STOPPED}
    case CloneOp => {RECORDING, STOPPED}
    case StreamOp => {STOPPED}
    case CloseOp => {RECORDING}
  }

  /** The state after a sequence of operations. */
  function Run(s: State, ops: seq<Operation>): State
    decreases |ops|
  {
    if ops == [] then s else Run(Transition(s, ops[0]), ops[1..])
  }

  /** No operation leaves CLOSED. */
  lemma {:induction false} ClosedIsFinal(ops: seq<Operation>)
    ensures Run(CLOSED, ops) == CLOSED
    decreases |ops|
  {
    if ops != [] {
      ClosedIsFinal(ops[1..]);
    }
  }

  /** Once closed, a recording stays closed, whatever follows. */
  lemma {:induction false} CloseIsFinal(s: State, ops: seq<Operation>)
    requires CloseOp in ops
    ensures Run(s, ops) == CLOSED
    decreases |ops|
  {
    if ops[0] == CloseOp {
      ClosedIsFinal(ops[1..]);
    } else {
      CloseIsFinal(Transition(s, ops[0]), ops[1..]);
    }
  }

  /** A recording records only after a start. */
  lemma {:induction false} RecordingNeedsStart(s: State, ops: seq<Operation>)
    requires s != RECORDING && Run(s, ops) == RECORDING
    ensures StartOp in ops
    decreases |ops|
  {
    if ops != [] && ops[0] != StartOp {
      RecordingNeedsStart(Transition(s, ops[0]), ops[1..]);
    }
  }

  /** No operation the backend is called for is refused, and close is never refused. */
  lemma CallingIsExpected(op: Operation)
    ensures Calling(op) <= Expected(op)
    ensures CLOSED !in Calling(op)
  {
  }

  // ---------------------------------------------------------------- messages

  /** `Recording state <actual> not in [<expected>, ...]`. */
  function IllegalStateMessage(actual: State, expected: seq<State>): string {
    "Recording state " + StateName(actual) + " not in [" + Join(StateNames(expected), ", ") + "]"
  }

  /** `createIllegalStateExceptionMessage`: the expected names are appended one by one, separated by ", ". */
  method CreateIllegalStateMessage(actual: State, expected: State, others: seq<State>) returns (message: string)
    ensures message == IllegalStateMessage(actual, [expected] + others)
  {
    var names := StateName(expected);
    var i := 0;
    while i < |others|
      invariant 0 <= i <= |others|
      invariant names == Join(StateNames([expected] + others[..i]), ", ")
    {
      JoinAppend(StateNames([expected] + others[..i]), StateName(others[i]), ", ");
      assert StateNames([expected] + others[..i + 1]) == StateNames([expected] + others[..i]) + [StateName(others[i])] by {
        assert [expected] + others[..i + 1] == ([expected] + others[..i]) + [others[i]];
      }
      names := names + ", " + StateName(others[i]);
      i := i + 1;
    }
    assert [expected] + others[..|others|] == [expected] + others;
    message := "Recording state " + StateName(actual) + " not in [" + names + "]";
  }

  /** Joining one more part appends the separator and the part. */
  lemma {:induction false} JoinAppend(parts: seq<string>, last: string, separator: string)
    requires |parts| > 0
    ensures Join(parts + [last], separator) == Join(parts, separator) + separator + last
    decreases |parts|
  {
    if |parts| > 1 {
      assert (parts + [last])[1..] == parts[1..] + [last];
      JoinAppend(parts[1..], last, separator);
    }
  }

  /** The message for a start or stop of a closed recording. */
  lemma ClosedMessage()
    ensures IllegalStateMessage(CLOSED, [NEW, RECORDING, STOPPED])
         == "Recording state " + "CLOSED" + " not in [" + "NEW, RECORDING, STOPPED" + "]"
  {
    var names := StateNames([NEW, RECORDING, STOPPED]);
    assert names == ["NEW", "RECORDING", "STOPPED"];
    assert names[1..] == ["RECORDING", "STOPPED"];
    assert names[1..][1..] == ["STOPPED"];
    assert Join(names, ", ") == "NEW" + ", " + ("RECORDING" + ", " + "STOPPED");
  }

  // ---------------------------------------------------------------- the recording

  class Recording {
    const connection: FlightRecorderConnection
    const recordingOptions: Option<RecordingOptions>
    const recordingConfiguration: Option<RecordingConfiguration>
    var id: int
    var state: State

    /** A new recording: NEW, with no id yet (-1). */
    constructor (connection: FlightRecorderConnection, recordingOptions: Option<RecordingOptions>,
                 recordingConfiguration: Option<RecordingConfiguration>)
      ensures this.connection == connection
      ensures this.recordingOptions == recordingOptions && this.recordingConfiguration == recordingConfiguration
      ensures id == -1 && state == NEW
    {
      this.connection := connection;
      this.recordingOptions := recordingOptions;
      this.recordingConfiguration := recordingConfiguration;
      id := -1;
      state := NEW;
    }

    function GetId(): int
      reads this
    {
      id
    }

    function GetState(): State
      reads this
    {
      state
    }

    /**
     * `start`: from NEW or STOPPED the state becomes RECORDING before the
     * backend starts a recording, whose id is kept; while RECORDING nothing
     * happens and the current id is returned; a closed recording refuses.
     */
    method Start() returns (r: Result<int, Error>)
      modifies this, connection, connection.server
      ensures state == Transition(old(state), StartOp)
      ensures old(state) in Calling(StartOp) ==>
        && connection.calls == old(connection.calls) + [StartCall(recordingOptions, recordingConfiguration, r)]
        && id == (if r.Success? then r.value else old(id))
      ensures old(state) == RECORDING ==> r == Success(id) && id == old(id)
      ensures old(state) == CLOSED ==> r == Failure(IllegalState(IllegalStateMessage(CLOSED, [NEW, RECORDING, STOPPED])))
      ensures old(state) !in Calling(StartOp) ==> id == old(id) && unchanged(connection, connection.server)
    {
      var oldState := state;
      state := Transition(state, StartOp);
      if oldState == NEW || oldState == STOPPED {
        r := connection.StartRecording(recordingOptions, recordingConfiguration);
        if r.Success? {
          id := r.value;
        }
      } else if oldState == CLOSED {
        var message := CreateIllegalStateMessage(oldState, NEW, [RECORDING, STOPPED]);
        r := Failure(IllegalState(message));
      } else {
        r := Success(id);
      }
    }

    /**
     * `stop`: from RECORDING the state becomes STOPPED and the backend stops
     * the recording; NEW and STOPPED are left alone; a closed recording refuses.
     */
    method Stop() returns (r: Outcome<Error>)
      modifies this, connection, connection.server
      ensures state == Transition(old(state), StopOp) && id == old(id)
      ensures old(state) in Calling(StopOp) ==> connection.calls == old(connection.calls) + [StopCall(id, r)]
      ensures old(state) == NEW || old(state) == STOPPED ==> r == Pass
      ensures old(state) == CLOSED ==> r == Fail(IllegalState(IllegalStateMessage(CLOSED, [NEW, RECORDING, STOPPED])))
      ensures old(state) !in Calling(StopOp) ==> unchanged(connection, connection.server)
    {
      var oldState := state;
      state := Transition(state, StopOp);
      if oldState == RECORDING {
        r := connection.StopRecording(id);
      } else if oldState == CLOSED {
        var message := CreateIllegalStateMessage(oldState, NEW, [RECORDING, STOPPED]);
        r := Fail(IllegalState(message));
      } else {
        r := Pass;
      }
    }

    /**
     * `dump`: a null file name is refused first; a recording that is
     * RECORDING or STOPPED is written out by the backend; NEW and CLOSED
     * refuse. The state does not change.
     */
    method Dump(outputFile: JString) returns (r: Outcome<Error>)
      modifies connection, connection.server
      ensures state == Transition(old(state), DumpOp)
      ensures outputFile.None? ==> r == Fail(NullPointer("outputFile may not be null"))
      ensures outputFile.Some? && state in Calling(DumpOp) ==>
        connection.calls == old(connection.calls) + [DumpCall(id, outputFile.value, r)]
      ensures outputFile.Some? && state !in Expected(DumpOp) ==>
        r == Fail(IllegalState(IllegalStateMessage(state, [RECORDING, STOPPED])))
      ensures outputFile.None? || state !in Calling(DumpOp) ==> unchanged(connection, connection.server)
    {
      if outputFile.None? {
        return Fail(NullPointer("outputFile may not be null"));
      }
      var currentState := state;
      if currentState == RECORDING || currentState == STOPPED {
        r := connection.DumpRecording(id, outputFile.value);
      } else {
        var message := CreateIllegalStateMessage(currentState, RECORDING, [STOPPED]);
        r := Fail(IllegalState(message));
      }
    }

    /**
     * `clone`: the backend copies a recording that is RECORDING or STOPPED;
     * the copy shares this recording's connection, options and configuration,
     * has the id the backend answered, and is STOPPED when `stop` asks for
     * it, in this recording's state otherwise. This recording is unchanged.
     */
    method Clone(stop: bool) returns (r: Result<Recording, Error>)
      modifies connection, connection.server
      ensures state == Transition(old(state), CloneOp)
      ensures state in Calling(CloneOp) ==>
        exists cloned :: connection.calls == old(connection.calls) + [CloneCall(id, stop, cloned)]
          && (r.Success? <==> cloned.Success?)
          && (cloned.Success? ==> r.value.id == cloned.value)
          && (cloned.Failure? ==> r.error == cloned.error)
      ensures state !in Expected(CloneOp) ==>
        r == Failure(IllegalState(IllegalStateMessage(state, [RECORDING, STOPPED]))) && unchanged(connection, connection.server)
      ensures r.Success? ==>
        && fresh(r.value)
        && r.value.connection == connection
        && r.value.recordingOptions == recordingOptions
        && r.value.recordingConfiguration == recordingConfiguration
        && r.value.state == (if stop then STOPPED else state)
    {
      var currentState := state;
      if currentState == RECORDING || currentState == STOPPED {
        var newId := connection.CloneRecording(id, stop);
        if newId.Failure? {
          return Failure(newId.error);
        }
        var recordingClone := new Recording(connection, recordingOptions, recordingConfiguration);
        recordingClone.id := newId.value;
        recordingClone.state := if stop then STOPPED else currentState;
        r := Success(recordingClone);
      } else {
        var message := CreateIllegalStateMessage(currentState, RECORDING, [STOPPED]);
        r := Failure(IllegalState(message));
      }
    }

    /** `getStream`: only a STOPPED recording is read, with the bounds and block size passed through unchanged. */
    method GetStream(startTime: JString, endTime: JString, blockSize: int) returns (r: Result<Mx.RecordingStream, Error>)
      modifies connection, connection.server
      ensures state == Transition(old(state), StreamOp)
      ensures state in Calling(StreamOp) ==>
        connection.calls == old(connection.calls) + [StreamCall(id, startTime, endTime, blockSize, r)]
      ensures state !in Expected(StreamOp) ==>
        r == Failure(IllegalState(IllegalStateMessage(state, [STOPPED]))) && unchanged(connection, connection.server)
    {
      var currentState := state;
      if currentState == STOPPED {
        r := connection.GetStream(id, startTime, endTime, blockSize);
      } else {
        var message := CreateIllegalStateMessage(currentState, STOPPED, []);
        r := Failure(IllegalState(message));
      }
    }

    /**
     * `close`: the recording is CLOSED afterwards, whatever happens. Only a
     * recording that was RECORDING is stopped, and then closed if the stop
     * succeeded; every failure is swallowed.
     */
    method Close()
      modifies this, connection, connection.server
      ensures state == Transition(old(state), CloseOp) && id == old(id)
      ensures old(state) in Calling(CloseOp) ==>
        exists stopped :: (connection.calls == old(connection.calls) + [StopCall(id, stopped)] && stopped.Fail?)
          || (stopped.Pass? && exists closed :: connection.calls == old(connection.calls) + [StopCall(id, stopped), CloseCall(id, closed)])
      ensures old(state) !in Calling(CloseOp) ==> unchanged(connection, connection.server)
    {
      var oldState := state;
      state := Transition(state, CloseOp);
      if oldState == RECORDING {
        var stopped := connection.StopRecording(id);
        if stopped.Pass? {
          var closed := connection.CloseRecording(id);
          assert connection.calls == old(connection.calls) + [StopCall(id, stopped), CloseCall(id, closed)];
        }
      }
    }
  }
}
