/** What the remote side can throw, and the exceptions the client throws to its callers. */
module Exceptions {
  import opened Wrappers

  /** A failure reported by `MBeanServerConnection.invoke` or `getObjectInstance`. */
  datatype RemoteFailure =
    | IOException                 // communication with the MBean server failed
    | InstanceNotFoundException   // no MBean is registered under the name
    | MBeanException              // the MBean operation threw a checked exception
    | ReflectionException         // the operation could not be invoked
    | RuntimeMBeanException       // the MBean operation threw an unchecked exception

  /** What `InternalError` wraps. */
  datatype Cause =
    | Remote(failure: RemoteFailure)
    | MalformedObjectName(name: string)

  /** An exception thrown by the client. */
  datatype Error =
    | Propagated(failure: RemoteFailure)      // a remote failure rethrown unchanged
    | InternalError(cause: Cause)
    | JfrStreaming(message: string, wrapped: Option<RemoteFailure>)
    | IllegalState(message: string)
    | IllegalArgument(message: string)
    | NullPointer(message: string)
    | UnsupportedOperation(message: string)
    | NumberFormat(input: string)
    | ClassCast                               // a reply of an unexpected type was cast

  /**
   * The message of a NullPointerException thrown by `Objects.requireNonNull`
   * or by dereferencing null; the model does not track these messages.
   */
  const NO_MESSAGE: string := ""
}
