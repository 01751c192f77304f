/**
 * The gateway's lazily filled cache of gRPC clients (`ServiceClients`) and
 * the three calls it makes through them. Network and environment access are
 * parameters: the process environment is a map, connecting is a `Dialer`,
 * and each RPC's answer is given.
 */
module Clients {
  import opened Wrappers
  import opened Uuid
  import opened Grpc
  import opened UserErrors

  /** An open transport channel to one downstream service. */
  datatype Channel = Channel(endpoint: string, session: nat)

  /** One slot per downstream service; a filled slot is never emptied again. */
  datatype ServiceClients = ServiceClients(messaging: Option<Channel>, logging: Option<Channel>)

  /** An interaction of the gateway with the outside world, listed in the order performed. */
  datatype Effect =
    | ReadEnv(name: string)
    | Dial(url: string)
    | GetMessageRpc
    | GetAllMessagesRpc
    | LogMessageRpc(request: MsgPostRequest)
    | ReceiveRandomMessages
    | SendMessage(body: string, id: Uuid)

  /** Connecting to a URL: the channel, or the transport error. */
  type Dialer = string -> Result<Channel, string>

  /** The cache after a call, what the call did, and what it returned. */
  datatype Step<T> = Step(clients: ServiceClients, effects: seq<Effect>, result: Result<T, UserError>)

  const LoggingPortVar: string := "LOGGING_SERVICE_PORT"
  const LoggingUrlPrefix: string := "http://logging-service:"
  const MessagingPortVar: string := "MESSAGES_SERVICE_PORT"
  const MessagingUrlPrefix: string := "http://messages-service:"

  /** `ServiceClients::new`: nothing connected yet. */
  function New(): (c: ServiceClients)
    ensures c.messaging.None? && c.logging.None?
  {
    ServiceClients(None, None)
  }

  /** `Option::ok_or`. */
  function OkOr(slot: Option<Channel>, e: UserError): Result<Channel, UserError>
  {
    match slot
    case Some(ch) => Success(ch)
    case None => Failure(e)
  }

  /** One slot after a connection attempt, what the attempt did, and the client handed out. */
  datatype SlotStep = SlotStep(slot: Option<Channel>, effects: seq<Effect>, client: Result<Channel, UserError>)

  /**
   * The body shared by `connect_logging` and `connect_messaging`: an empty
   * slot is filled by reading the port variable and connecting to
   * `urlPrefix + port`; a missing variable or a failed connection is a
   * connection error and leaves the slot empty; a filled slot is returned as
   * it is, without reading the environment or connecting.
   */
  function ConnectSlot(slot: Option<Channel>, urlPrefix: string, portVar: string,
                       env: map<string, string>, dial: Dialer): (r: SlotStep)
    ensures r.client != Failure(ServiceInternalError)
    ensures r.client.Success? <==> r.slot.Some?
    ensures r.client.Success? ==> r.slot == Some(r.client.value)
    ensures r.client.Failure? ==> r.client.error == ServiceConnectionError && r.slot == slot
    ensures slot.Some? ==> r.slot == slot && r.effects == []
    ensures slot.None? && portVar !in env ==> r.client.Failure? && r.effects == [ReadEnv(portVar)]
    ensures slot.None? && portVar in env ==>
      var url := urlPrefix + env[portVar];
      && r.effects == [ReadEnv(portVar), Dial(url)]
      && (dial(url).Success? <==> r.client.Success?)
      && (dial(url).Success? ==> r.client.value == dial(url).value)
  {
    if slot.Some? then
      SlotStep(slot, [], OkOr(slot, ServiceInternalError))
    else if portVar !in env then
      SlotStep(slot, [ReadEnv(portVar)], Failure(ServiceConnectionError))
    else
      var url := urlPrefix + env[portVar];
      match dial(url)
      case Failure(_) =>
        SlotStep(slot, [ReadEnv(portVar), Dial(url)], Failure(ServiceConnectionError))
      case Success(ch) =>
        var filled := Some(ch);
        SlotStep(filled, [ReadEnv(portVar), Dial(url)], OkOr(filled, ServiceInternalError))
  }

  /** `connect_logging`: the logging slot as `ConnectSlot` leaves it; the messaging slot untouched. */
  function ConnectLogging(c: ServiceClients, env: map<string, string>, dial: Dialer): (r: Step<Channel>)
    ensures r.clients.messaging == c.messaging
    ensures r.result != Failure(ServiceInternalError)
    ensures r.result.Success? ==> r.clients.logging == Some(r.result.value)
    ensures r.result.Failure? ==> r.result.error == ServiceConnectionError && r.clients == c
    ensures c.logging.Some? ==> r == Step(c, [], Success(c.logging.value))
  {
    var s := ConnectSlot(c.logging, LoggingUrlPrefix, LoggingPortVar, env, dial);
    Step(c.(logging := s.slot), s.effects, s.client)
  }

  /** `connect_messaging`: the messaging slot as `ConnectSlot` leaves it; the logging slot untouched. */
  function ConnectMessaging(c: ServiceClients, env: map<string, string>, dial: Dialer): (r: Step<Channel>)
    ensures r.clients.logging == c.logging
    ensures r.result != Failure(ServiceInternalError)
    ensures r.result.Success? ==> r.clients.messaging == Some(r.result.value)
    ensures r.result.Failure? ==> r.result.error == ServiceConnectionError && r.clients == c
    ensures c.messaging.Some? ==> r == Step(c, [], Success(c.messaging.value))
  {
    var s := ConnectSlot(c.messaging, MessagingUrlPrefix, MessagingPortVar, env, dial);
    Step(c.(messaging := s.slot), s.effects, s.client)
  }

  /** Once connected, connecting again hands out the same client, changes nothing and does nothing. */
  lemma ConnectLoggingIdempotent(c: ServiceClients, env: map<string, string>, dial: Dialer,
                                 env2: map<string, string>, dial2: Dialer)
    requires ConnectLogging(c, env, dial).result.Success?
    ensures
      var first := ConnectLogging(c, env, dial);
      ConnectLogging(first.clients, env2, dial2) == Step(first.clients, [], first.result)
  {
  }

  /** The same for the messaging client. */
  lemma ConnectMessagingIdempotent(c: ServiceClients, env: map<string, string>, dial: Dialer,
                                   env2: map<string, string>, dial2: Dialer)
    requires ConnectMessaging(c, env, dial).result.Success?
    ensures
      var first := ConnectMessaging(c, env, dial);
      ConnectMessaging(first.clients, env2, dial2) == Step(first.clients, [], first.result)
  {
  }

  /**
   * A first connection reads the port variable and dials the service's URL
   * with it, and succeeds exactly when the variable is set and the dial
   * succeeds.
   */
  lemma FirstConnectLogging(c: ServiceClients, env: map<string, string>, dial: Dialer)
    requires c.logging.None?
    ensures
      var r := ConnectLogging(c, env, dial);
      && r.effects[0] == ReadEnv("LOGGING_SERVICE_PORT")
      && (r.result.Success? <==>
            "LOGGING_SERVICE_PORT" in env
            && dial("http://logging-service:" + env["LOGGING_SERVICE_PORT"]).Success?)
      && (r.result.Success? ==>
            r.effects == [ReadEnv("LOGGING_SERVICE_PORT"), Dial("http://logging-service:" + env["LOGGING_SERVICE_PORT"])])
  {
  }

  /** Issue one RPC over a connection attempt's client: a connect error propagates, an RPC error is wrapped. */
  function CallRpc<T>(conn: Step<Channel>, call: Effect, reply: Result<T, Status>): (r: Step<T>)
    ensures r.clients == conn.clients
    ensures conn.result.Failure? ==> r.effects == conn.effects && r.result == Failure(conn.result.error)
    ensures conn.result.Success? ==> r.effects == conn.effects + [call]
    ensures conn.result.Success? && reply.Failure? ==> r.result == Failure(GrpcError(reply.error))
    ensures conn.result.Success? && reply.Success? ==> r.result == Success(reply.value)
  {
    match conn.result
    case Failure(e) => Step(conn.clients, conn.effects, Failure(e))
    case Success(_) =>
      match reply
      case Failure(status) => Step(conn.clients, conn.effects + [call], Failure(GrpcError(status)))
      case Success(v) => Step(conn.clients, conn.effects + [call], Success(v))
  }

  /**
   * `receive_static_message`: connect to the messages service, then ask it
   * for its messages. The RPC is issued only over a connected client; its
   * failure is reported as `GrpcError` and leaves the cached client in place.
   */
  function ReceiveStaticMessage(c: ServiceClients, env: map<string, string>, dial: Dialer,
                                reply: Result<MsgReply, Status>): (r: Step<MsgReply>)
    ensures r.clients.logging == c.logging
    ensures r.result.Success? || r.result == Failure(ServiceConnectionError) || (reply.Failure? && r.result == Failure(GrpcError(reply.error)))
    ensures GetMessageRpc in r.effects <==> r.clients.messaging.Some?
    ensures r.clients.messaging.Some? ==> r.result == (if reply.Success? then Success(reply.value) else Failure(GrpcError(reply.error)))
    ensures r.clients.messaging.None? ==> r.result == Failure(ServiceConnectionError)
  {
    var conn := ConnectMessaging(c, env, dial);
    assert GetMessageRpc !in conn.effects;
    CallRpc(conn, GetMessageRpc, reply)
  }

  /** `receive_logged_messages`: the same over the logging client, asking for every logged message. */
  function ReceiveLoggedMessages(c: ServiceClients, env: map<string, string>, dial: Dialer,
                                 reply: Result<GetAllReply, Status>): (r: Step<GetAllReply>)
    ensures r.clients.messaging == c.messaging
    ensures r.result.Success? || r.result == Failure(ServiceConnectionError) || (reply.Failure? && r.result == Failure(GrpcError(reply.error)))
    ensures GetAllMessagesRpc in r.effects <==> r.clients.logging.Some?
    ensures r.clients.logging.Some? ==> r.result == (if reply.Success? then Success(reply.value) else Failure(GrpcError(reply.error)))
    ensures r.clients.logging.None? ==> r.result == Failure(ServiceConnectionError)
  {
    var conn := ConnectLogging(c, env, dial);
    assert GetAllMessagesRpc !in conn.effects;
    CallRpc(conn, GetAllMessagesRpc, reply)
  }

  /**
   * `log_message`: connect to the logging service, then send it `request`,
   * whose answer `rpc` gives. The request is sent only over a connected
   * client, unchanged; an RPC failure leaves the cached client in place.
   */
  function LogMessage(c: ServiceClients, env: map<string, string>, dial: Dialer, request: MsgPostRequest,
                      rpc: MsgPostRequest -> Result<LogReply, Status>): (r: Step<()>)
    ensures r.clients.messaging == c.messaging
    ensures (exists q :: LogMessageRpc(q) in r.effects) <==> r.clients.logging.Some?
    ensures forall q :: LogMessageRpc(q) in r.effects ==> q == request
    ensures r.clients.logging.Some? ==> r.effects[|r.effects| - 1] == LogMessageRpc(request)
    ensures r.clients.logging.Some? ==> (r.result.Success? <==> rpc(request).Success?)
    ensures r.clients.logging.Some? && rpc(request).Failure? ==> r.result == Failure(GrpcError(rpc(request).error))
    ensures r.clients.logging.None? ==> r.result == Failure(ServiceConnectionError)
  {
    var conn := ConnectLogging(c, env, dial);
    assert forall q :: LogMessageRpc(q) !in conn.effects;
    var r := CallRpc(conn, LogMessageRpc(request), rpc(request));
    Step(r.clients, r.effects, if r.result.Success? then Success(()) else Failure(r.result.error))
  }
}
