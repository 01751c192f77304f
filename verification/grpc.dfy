/** The gRPC vocabulary shared by the gateway and the two stores. */
module Grpc {

  /** The gRPC status codes. */
  datatype Code =
    | Ok | Cancelled | Unknown | InvalidArgument | DeadlineExceeded | NotFound
    | AlreadyExists | PermissionDenied | ResourceExhausted | FailedPrecondition
    | Aborted | OutOfRange | Unimplemented | Internal | Unavailable | DataLoss
    | Unauthenticated

  /** A gRPC error status: a code and a human-readable description. */
  datatype Status = Status(code: Code, message: string)

  /** `log_message.MsgPostRequest`: a message identifier as text, and the body. */
  datatype MsgPostRequest = MsgPostRequest(uuid: string, message: string)

  /** `log_message.LogReply`: an empty acknowledgement. */
  datatype LogReply = LogReply

  /** `log_message.GetAllReply`: every logged message in one string. */
  datatype GetAllReply = GetAllReply(messages: string)

  /** `get_message.MsgReply`: every consumed message in one string. */
  datatype MsgReply = MsgReply(message: string)
}
