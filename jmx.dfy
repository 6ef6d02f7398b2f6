/**
 * The JMX transport as the client sees it: an MBean server that resolves
 * object names and invokes named operations. What the remote side answers is
 * not known to the client, so each answer is an arbitrary reply; every request
 * is kept, with its reply, in the server's log.
 */
module Jmx {
  import opened Wrappers
  import opened JavaLang
  import opened Exceptions
  import opened OpenDataUtils

  /** A value returned by a remote operation. */
  datatype Value =
    | Null                             // a `void` operation, or a `null` result
    | LongValue(n: Long)               // a boxed `Long`
    | StringValue(s: string)
    | ObjectInstance(objectName: string)
    | OtherObject                      // any other kind of object

  /** An argument passed to a remote operation. */
  datatype Arg =
    | LongArg(n: int)
    | StringArg(s: string)
    | BooleanArg(b: bool)
    | TableArg(table: Table)
    | StringArrayArg(items: seq<string>)

  /** A request sent to the MBean server. */
  datatype Request =
    | Invoke(target: string, operation: string, params: seq<Arg>, signature: seq<string>)
    | GetObjectInstance(name: string)

  datatype Reply = Returned(value: Value) | Threw(failure: RemoteFailure)

  datatype Exchange = Exchange(request: Request, reply: Reply)

  /** The calls in a piece of the log, without their replies. */
  function Requests(log: seq<Exchange>): (r: seq<Request>)
    ensures |r| == |log|
    ensures forall i :: 0 <= i < |log| ==> r[i] == log[i].request
  {
    if log == [] then [] else [log[0].request] + Requests(log[1..])
  }

  /** `after` is `before` with more exchanges appended. */
  ghost predicate Extends(before: seq<Exchange>, after: seq<Exchange>) {
    |before| <= |after| && after[..|before|] == before
  }

  /**
   * The requests of a plan were sent in order, stopping at the first that
   * failed: every exchange but the last returned, and the plan was cut short
   * only by a failure.
   */
  ghost predicate Executed(plan: seq<Request>, exchanges: seq<Exchange>) {
    && 0 < |exchanges| <= |plan|
    && Requests(exchanges) == plan[..|exchanges|]
    && (forall i :: 0 <= i < |exchanges| - 1 ==> exchanges[i].reply.Returned?)
    && (|exchanges| < |plan| ==> exchanges[|exchanges| - 1].reply.Threw?)
  }

  /** The reply to the latest request. */
  function LastReply(log: seq<Exchange>): Reply
    requires |log| > 0
  {
    log[|log| - 1].reply
  }

  /** The connection to an MBean server, with the log of what was asked of it. */
  class MBeanServer {
    var log: seq<Exchange>

    constructor ()
      ensures log == []
    {
      log := [];
    }

    /** Sends a request; the remote side answers with any reply at all. */
    method Send(request: Request) returns (reply: Reply)
      modifies this
      ensures log == old(log) + [Exchange(request, reply)]
    {
      reply :| true;
      log := log + [Exchange(request, reply)];
    }
  }

  /** Characters an unquoted key or value of an object name may not contain. */
  predicate Reserved(c: char) {
    c == ':' || c == ',' || c == '=' || c == '*' || c == '?' || c == '"' || c == '\n'
  }

  /** An object-name key property `key=value` with both sides non-empty and unquoted. */
  predicate KeyProperty(p: string) {
    exists e :: 0 < e < |p| - 1 && p[e] == '=' &&
      forall i :: 0 <= i < |p| && i != e ==> !Reserved(p[i])
  }

  /**
   * The names `new ObjectName(name)` accepts among those of the form
   * `domain:key=value`: a domain without `:` or newline and one key property.
   */
  predicate WellFormedObjectName(name: string) {
    exists c :: 0 <= c < |name| && name[c] == ':' &&
      (forall i :: 0 <= i < c ==> name[i] != ':' && name[i] != '\n') &&
      KeyProperty(name[c + 1..])
  }
}
