/**
 * The server's error kinds (server/src/error.rs). Errors from the serde and I/O
 * libraries are kept as bare kinds: their payloads are not part of this model.
 */
module Errors {
  datatype BridgeError =
    | NotReady(reason: string)
    | Crashed(reason: string)
    | Timeout(millis: nat)
    | MalformedResponse(reason: string)
    | SpawnFailed(reason: string)

  datatype ProtocolError =
    | InvalidJsonRpc(reason: string)
    | MissingContentLength
    | ContentLengthMismatch(expected: nat, actual: nat)
    | JsonParse

  datatype ProjectError =
    | GradleFailed(reason: string)
    | NoBuildSystem(root: string)
    | ClasspathExtraction(reason: string)
    | JvmNotFound(reason: string)

  datatype Error =
    | Bridge(bridge: BridgeError)
    | Protocol(protocol: ProtocolError)
    | Project(project: ProjectError)
    | Io
}
