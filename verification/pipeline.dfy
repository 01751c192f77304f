/**
 * The gateway wired to the stores: the gateway's calls answered by the store
 * models instead of by arbitrary replies.
 */
module Pipeline {
  import opened Wrappers
  import opened Uuid
  import opened Grpc
  import opened Text
  import opened MapOrder
  import opened UserErrors
  import opened Clients
  import opened Facade
  import LoggingService
  import MessagesService
  import Utf8

  /** A world whose logging service is the Rust store `store` reading identifiers with `parse`. */
  function WithLogStore(d: Downstream, store: LoggingService.HashMapLogger, parse: Parser): Downstream
  {
    d.(logRpc := (q: MsgPostRequest) => LoggingService.LogMessage(store, q, parse).reply)
  }

  /**
   * When the log store reads back the gateway's identifier text, a post
   * fails only before the store is reached: in the publish, or, once
   * published, in connecting to the store. A
   * successful post leaves the store holding the body under the identifier.
   */
  lemma PostMessageReachesLogStore(c: ServiceClients, d: Downstream, store: LoggingService.HashMapLogger,
                                   parse: Parser, msg: string, id: Uuid)
    requires parse(Format(id)) == Success(id)
    ensures
      var w := WithLogStore(d, store, parse);
      var r := PostMessage(c, w, msg, id);
      var sent := d.send(c, msg, id);
      && (r.result.Success? <==> sent.1.Success? && ConnectLogging(sent.0, d.env, d.dial).result.Success?)
      && (sent.1.Success? && r.result.Failure? ==> r.result.error == ServiceConnectionError)
      && (r.result.Success? ==>
            var after := LoggingService.LogMessage(store, LogRequest(msg, id), parse).store;
            LogMessageRpc(LogRequest(msg, id)) in r.effects && id in after.entries && after.entries[id] == msg)
  {
    var w := WithLogStore(d, store, parse);
    var sent := d.send(c, msg, id);
    if sent.1.Success? {
      var logged := Clients.LogMessage(sent.0, w.env, w.dial, LogRequest(msg, id), w.logRpc);
      assert logged.clients.logging.Some? <==> ConnectLogging(sent.0, d.env, d.dial).result.Success?;
    }
  }

  /** The canonical reader accepts every identifier the gateway formats, so it meets the hypothesis above. */
  lemma CanonicalParserAcceptsGateway(id: Uuid)
    ensures ParseHyphenated(Format(id)) == Success(id)
  {
    FormatRoundTrip(id);
  }

  /** A world whose logging service answers read-all from `store` iterated in `order`. */
  function WithLoggedReply(d: Downstream, store: LoggingService.HashMapLogger, order: seq<Uuid>): Downstream
    requires IsEnumeration(order, store.entries)
  {
    d.(loggedReply := LoggingService.GetAllMessages(store, order))
  }

  /**
   * A successful read shows every body of the log store, verbatim, after
   * both headings and the messages service's answer.
   */
  lemma GetMessagesShowsEveryLoggedBody(c: ServiceClients, d: Downstream, store: LoggingService.HashMapLogger,
                                        order: seq<Uuid>, i: nat)
    requires IsEnumeration(order, store.entries)
    requires i < |order|
    requires GetMessages(c, WithLoggedReply(d, store, order)).result.Success?
    ensures
      var w := WithLoggedReply(d, store, order);
      var body := GetMessages(c, w).result.value.body;
      var sequence := d.receiveRandom(c).1.value.message;
      var at := |SequenceHeader| + |sequence| + |LoggedHeader| + TotalLength(ValuesInOrder(store.entries, order)[..i]);
      var v := store.entries[order[i]];
      at + |v| <= |body| && body[at..at + |v|] == v
  {
    var w := WithLoggedReply(d, store, order);
    var sequence := d.receiveRandom(c).1.value.message;
    var logged := LoggingService.GetAllMessages(store, order).value.messages;
    var body := GetMessages(c, w).result.value.body;
    GetMessagesBody(c, w);
    LoggingService.GetAllMessagesContains(store, order, i);
    var off := TotalLength(ValuesInOrder(store.entries, order)[..i]);
    ResponseBodyContains(sequence, logged, store.entries[order[i]], off);
  }

  /**
   * A body published as UTF-8 and consumed by the messages service shows up
   * in that service's read, verbatim, as its last entry.
   */
  lemma {:induction false} ConsumedBodyIsRead(s: MessagesService.VecStoreGetter, msg: string, partition: int, offset: int)
    ensures
      var record := MessagesService.BorrowedMessage(Some(Utf8.Encode(msg)), partition, offset);
      var after := MessagesService.RecordMessage(s, Success(record)).store;
      var text := MessagesService.GetMessage(after).value.message;
      var at := JoinOffset(after.bodies, " : ", |s.bodies|);
      at + |msg| == |text| && text[at..] == msg
  {
    var record := MessagesService.BorrowedMessage(Some(Utf8.Encode(msg)), partition, offset);
    MessagesService.RecordEncodedBody(s, msg, partition, offset);
    var after := MessagesService.RecordMessage(s, Success(record)).store;
    MessagesService.GetMessageContains(after, |s.bodies|);
    JoinLength(after.bodies, " : ");
    assert after.bodies[..|s.bodies|] == s.bodies;
    TotalLengthAppend(s.bodies, [msg]);
    assert TotalLength([msg]) == |msg| by {
      assert [msg][..0] == [];
    }
  }
}
