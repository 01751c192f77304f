/**
 * The gateway's closed error enum (`UserError`), its user-facing text and
 * its HTTP status.
 */
module UserErrors {
  import opened Grpc

  datatype UserError =
    | ServiceConnectionError
    | ServiceInternalError
    | GrpcError(status: Status)

  /** The fixed ending of every error text. */
  const Standby: string := "\nPlease standby"

  /** The fixed opening of the text of a `GrpcError`. */
  const GrpcPrefix: string := "A grpc error occured: "

  const ConnectionText: string := "At least one of the required services is down"
  const InternalText: string := "An error inside the facade service occured"

  /** An HTTP response: status code and body. */
  datatype HttpResponse = HttpResponse(status: int, body: string)

  /** The error's `Display` text. */
  function Message(e: UserError): (text: string)
    ensures |text| >= |Standby| && text[|text| - |Standby|..] == Standby
    ensures e.GrpcError? ==>
      |text| == |GrpcPrefix| + |e.status.message| + |Standby|
      && text[|GrpcPrefix|..|GrpcPrefix| + |e.status.message|] == e.status.message
  {
    match e
    case ServiceConnectionError => ConnectionText + Standby
    case ServiceInternalError => InternalText + Standby
    case GrpcError(status) => GrpcPrefix + status.message + Standby
  }

  /** The HTTP status of an error: 503 when a dependency is unreachable, 500 otherwise. */
  function StatusCode(e: UserError): (code: int)
    ensures code == 503 <==> e.ServiceConnectionError?
    ensures code == 500 <==> (e.ServiceInternalError? || e.GrpcError?)
  {
    match e
    case ServiceConnectionError => 503
    case ServiceInternalError => 500
    case GrpcError(_) => 500
  }

  /** `error_response`: the error's status with its text as the body. */
  function ErrorResponse(e: UserError): (r: HttpResponse)
    ensures 500 <= r.status < 600
    ensures |r.body| >= |Standby| && r.body[|r.body| - |Standby|..] == Standby
  {
    HttpResponse(StatusCode(e), Message(e))
  }

  /** The second character of the text differs between the three kinds. */
  lemma KindLetter(e: UserError)
    ensures Message(e)[1] == (if e.ServiceConnectionError? then 't' else if e.ServiceInternalError? then 'n' else ' ')
  {
    match e
    case ServiceConnectionError => ConnectionLetter();
    case ServiceInternalError => InternalLetter();
    case GrpcError(status) => GrpcLetter(status);
  }

  lemma ConnectionLetter()
    ensures Message(ServiceConnectionError)[1] == 't'
  {
    assert Message(ServiceConnectionError) == ConnectionText + Standby;
    assert ConnectionText[1] == 't';
  }

  lemma InternalLetter()
    ensures Message(ServiceInternalError)[1] == 'n'
  {
    assert Message(ServiceInternalError) == InternalText + Standby;
    assert InternalText[1] == 'n';
  }

  lemma GrpcLetter(status: Status)
    ensures Message(GrpcError(status))[1] == ' '
  {
    assert Message(GrpcError(status))[..|GrpcPrefix|] == GrpcPrefix;
  }

  /**
   * The text tells the errors apart: equal texts mean the same kind of
   * error and, for gRPC failures, the same status message.
   */
  lemma MessageDeterminesError(e1: UserError, e2: UserError)
    requires Message(e1) == Message(e2)
    ensures e1.ServiceConnectionError? <==> e2.ServiceConnectionError?
    ensures e1.ServiceInternalError? <==> e2.ServiceInternalError?
    ensures e1.GrpcError? <==> e2.GrpcError?
    ensures e1.GrpcError? ==> e1.status.message == e2.status.message
  {
    var t := Message(e1);
    if e1.GrpcError? && e2.GrpcError? {
      assert e1.status.message == t[|GrpcPrefix|..|t| - |Standby|];
    } else {
      KindLetter(e1);
      KindLetter(e2);
    }
  }
}
