/** The gRPC status values (tonic's `Status`) that the backend's validators return. */
module RpcStatus {

  /** The gRPC status codes the validators use. */
  datatype Code = InvalidArgument | PermissionDenied

  /** A gRPC status: a code and a machine-readable message. */
  datatype Status = Status(code: Code, message: string)
}
