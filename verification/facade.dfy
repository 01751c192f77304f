/**
 * The gateway's HTTP handlers (`get_messages`, `post_message`). The two
 * helpers they use that live outside the modelled code, the Kafka producer
 * `send_message` and `receive_random_messages`, are opaque parameters that
 * may change the client cache and return a `UserError`.
 */
module Facade {
  import opened Wrappers
  import opened Uuid
  import opened Grpc
  import opened UserErrors
  import opened Clients
  import opened Text

  /** Everything outside the gateway that a handler's outcome depends on. */
  datatype Downstream = Downstream(
    env: map<string, string>,
    dial: Dialer,
    loggedReply: Result<GetAllReply, Status>,
    logRpc: MsgPostRequest -> Result<LogReply, Status>,
    receiveRandom: ServiceClients -> (ServiceClients, Result<MsgReply, UserError>),
    send: (ServiceClients, string, Uuid) -> (ServiceClients, Result<(), UserError>))

  const SequenceHeader: string := "Message sequence:\n"
  const LoggedHeader: string := "\nLogged messages:\n"

  /** The body of a successful read: both stores' answers under their headings. */
  function ResponseBody(sequence: string, logged: string): string
  {
    SequenceHeader + sequence + LoggedHeader + logged + "\n"
  }

  /** Where each answer sits in a read's body; both can be cut back out of it. */
  lemma ResponseBodyLayout(sequence: string, logged: string)
    ensures
      var body := ResponseBody(sequence, logged);
      var at := |SequenceHeader| + |sequence| + |LoggedHeader|;
      && |body| == at + |logged| + 1
      && body[..|SequenceHeader|] == SequenceHeader
      && body[|SequenceHeader|..|SequenceHeader| + |sequence|] == sequence
      && body[|SequenceHeader| + |sequence|..at] == LoggedHeader
      && body[at..at + |logged|] == logged
      && body[|body| - 1] == '\n'
  {
    var body := ResponseBody(sequence, logged);
    var at := |SequenceHeader| + |sequence| + |LoggedHeader|;
    assert body == (SequenceHeader + sequence + LoggedHeader) + logged + "\n";
    assert body[..at] == SequenceHeader + sequence + LoggedHeader;
  }

  /** Any piece of the logging service's answer appears in a read's body, shifted past the headings and the first answer. */
  lemma ResponseBodyContains(sequence: string, logged: string, v: string, off: nat)
    requires off + |v| <= |logged| && logged[off..off + |v|] == v
    ensures
      var body := ResponseBody(sequence, logged);
      var at := |SequenceHeader| + |sequence| + |LoggedHeader| + off;
      at + |v| <= |body| && body[at..at + |v|] == v
  {
    ResponseBodyLayout(sequence, logged);
    var start := |SequenceHeader| + |sequence| + |LoggedHeader|;
    SliceWithin(ResponseBody(sequence, logged), logged, start, off, off + |v|);
  }

  /**
   * `get_messages`: ask `receive_random_messages`, then the logging service.
   * The logging service is asked only once the first answer succeeded; any
   * failure is the handler's error, with no partial body.
   */
  function GetMessages(c: ServiceClients, d: Downstream): (r: Step<HttpResponse>)
    ensures |r.effects| >= 1 && r.effects[0] == ReceiveRandomMessages
    ensures d.receiveRandom(c).1.Failure? ==>
      r.effects == [ReceiveRandomMessages] && r.result == Failure(d.receiveRandom(c).1.error)
    ensures d.receiveRandom(c).1.Success? ==>
      var logged := ReceiveLoggedMessages(d.receiveRandom(c).0, d.env, d.dial, d.loggedReply);
      && r.effects == [ReceiveRandomMessages] + logged.effects
      && (r.result.Success? <==> logged.result.Success?)
      && (r.result.Failure? ==> r.result.error == logged.result.error)
      && (r.result.Success? ==>
            r.result.value == HttpResponse(200, ResponseBody(d.receiveRandom(c).1.value.message,
                                                             logged.result.value.messages)))
  {
    var (c1, random) := d.receiveRandom(c);
    match random
    case Failure(e) => Step(c1, [ReceiveRandomMessages], Failure(e))
    case Success(reply) =>
      var logged := ReceiveLoggedMessages(c1, d.env, d.dial, d.loggedReply);
      var effects := [ReceiveRandomMessages] + logged.effects;
      match logged.result
      case Failure(e) => Step(logged.clients, effects, Failure(e))
      case Success(all) => Step(logged.clients, effects, Success(HttpResponse(200, ResponseBody(reply.message, all.messages))))
  }

  /** A successful read's body holds the two services' answers as they were given. */
  lemma GetMessagesBody(c: ServiceClients, d: Downstream)
    requires GetMessages(c, d).result.Success?
    ensures d.receiveRandom(c).1.Success? && d.loggedReply.Success?
    ensures GetMessages(c, d).result.value.body
         == ResponseBody(d.receiveRandom(c).1.value.message, d.loggedReply.value.messages)
  {
  }

  /** A failed first answer means the logging service is never contacted. */
  lemma GetMessagesStopsAtFirstFailure(c: ServiceClients, d: Downstream)
    requires d.receiveRandom(c).1.Failure?
    ensures
      var r := GetMessages(c, d);
      && GetAllMessagesRpc !in r.effects
      && (forall e :: e in r.effects ==> !e.Dial?)
      && r.result.Failure?
  {
  }

  /** The log request for a new message: its identifier's text form and the unmodified body. */
  function LogRequest(msg: string, id: Uuid): (q: MsgPostRequest)
    ensures q.message == msg
    ensures |q.uuid| == 36 && ParseHyphenated(q.uuid) == Success(id)
  {
    FormatRoundTrip(id);
    MsgPostRequest(Format(id), msg)
  }

  /**
   * `post_message`: publish through `send_message` first, then log the same
   * identifier and body. A failed publish stops the request before logging;
   * a failed log after a successful publish is reported with nothing undone.
   */
  function PostMessage(c: ServiceClients, d: Downstream, msg: string, id: Uuid): (r: Step<HttpResponse>)
    ensures |r.effects| >= 1 && r.effects[0] == SendMessage(msg, id)
    ensures d.send(c, msg, id).1.Failure? ==>
      r.effects == [SendMessage(msg, id)] && r.result == Failure(d.send(c, msg, id).1.error)
    ensures d.send(c, msg, id).1.Success? ==>
      var logged := LogMessage(d.send(c, msg, id).0, d.env, d.dial, LogRequest(msg, id), d.logRpc);
      && r.effects == [SendMessage(msg, id)] + logged.effects
      && r.clients == logged.clients
      && (r.result.Success? <==> logged.result.Success?)
      && (r.result.Failure? ==> r.result.error == logged.result.error)
    ensures r.result.Success? ==> r.result.value == HttpResponse(200, "")
  {
    var (c1, sent) := d.send(c, msg, id);
    match sent
    case Failure(e) => Step(c1, [SendMessage(msg, id)], Failure(e))
    case Success(_) =>
      var logged := LogMessage(c1, d.env, d.dial, LogRequest(msg, id), d.logRpc);
      var effects := [SendMessage(msg, id)] + logged.effects;
      match logged.result
      case Failure(e) => Step(logged.clients, effects, Failure(e))
      case Success(_) => Step(logged.clients, effects, Success(HttpResponse(200, "")))
  }

  /** A post publishes once, as its first action: logging never publishes. */
  lemma PostMessageSendsOnce(c: ServiceClients, d: Downstream, msg: string, id: Uuid)
    ensures
      var r := PostMessage(c, d, msg, id);
      forall i :: 0 <= i < |r.effects| && r.effects[i].SendMessage? ==> i == 0
  {
    var sent := d.send(c, msg, id);
    if sent.1.Success? {
      var logged := LogMessage(sent.0, d.env, d.dial, LogRequest(msg, id), d.logRpc);
      assert forall e :: e in logged.effects ==> !e.SendMessage?;
    }
  }

  /** Whatever a post logs is the request for the same identifier and body; a successful post has logged it. */
  lemma PostMessageLogsRequest(c: ServiceClients, d: Downstream, msg: string, id: Uuid)
    ensures
      var r := PostMessage(c, d, msg, id);
      && (forall q :: LogMessageRpc(q) in r.effects ==> q == LogRequest(msg, id))
      && (r.result.Success? ==> LogMessageRpc(LogRequest(msg, id)) in r.effects)
  {
    var r := PostMessage(c, d, msg, id);
    var sent := d.send(c, msg, id);
    if sent.1.Success? {
      var logged := LogMessage(sent.0, d.env, d.dial, LogRequest(msg, id), d.logRpc);
      assert r.effects == [SendMessage(msg, id)] + logged.effects;
      if r.result.Success? {
        assert r.effects[|r.effects| - 1] == LogMessageRpc(LogRequest(msg, id));
      }
    }
  }

  /** The HTTP answer of a handler: its response, or the error's response. */
  function Respond(result: Result<HttpResponse, UserError>): (http: HttpResponse)
    ensures result.Success? ==> http == result.value
    ensures result.Failure? ==> http.status == StatusCode(result.error) && http.body == Message(result.error)
  {
    match result
    case Success(response) => response
    case Failure(e) => ErrorResponse(e)
  }
}
