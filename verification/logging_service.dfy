/**
 * The direct-write log store, Rust version (`HashMapLogger`): a map from
 * message identifier to message body, written one entry at a time and read
 * as one string.
 */
module LoggingService {
  import opened Wrappers
  import opened Uuid
  import opened Grpc
  import opened Text
  import opened MapOrder

  /** The store's map. Reader/writer locking is not modelled: each call is atomic. */
  datatype HashMapLogger = HashMapLogger(entries: map<Uuid, string>)

  /** The store after a write, and the reply sent to the caller. */
  datatype LogOutcome = LogOutcome(store: HashMapLogger, reply: Result<LogReply, Status>)

  /** `HashMapLogger::default()`: the store a fresh process serves. */
  function Default(): (s: HashMapLogger)
    ensures |s.entries| == 0
  {
    HashMapLogger(map[])
  }

  /** The rejection sent for an identifier that does not parse. */
  const InvalidUuid: Status := Status(InvalidArgument, "invalid uuid")

  /**
   * `log_message`: parse the identifier, then insert the body under it,
   * replacing any earlier body (last write wins).
   */
  function LogMessage(s: HashMapLogger, request: MsgPostRequest, parse: Parser): (r: LogOutcome)
    ensures parse(request.uuid).Failure? ==> r.reply == Failure(InvalidUuid) && r.store == s
    ensures parse(request.uuid).Success? ==>
      var id := parse(request.uuid).value;
      && r.reply == Success(LogReply)
      && id in r.store.entries && r.store.entries[id] == request.message
      && r.store.entries.Keys == s.entries.Keys + {id}
      && forall k :: k in s.entries && k != id ==> r.store.entries[k] == s.entries[k]
  {
    match parse(request.uuid)
    case Failure(_) => LogOutcome(s, Failure(InvalidUuid))
    case Success(id) => LogOutcome(HashMapLogger(s.entries[id := request.message]), Success(LogReply))
  }

  /**
   * `get_all_messages`: every stored body, in the map's iteration order
   * `order`, with nothing in between. It always succeeds; the store is an
   * argument only, so it is left as it was.
   */
  function GetAllMessages(s: HashMapLogger, order: seq<Uuid>): (r: Result<GetAllReply, Status>)
    requires IsEnumeration(order, s.entries)
    ensures r.Success?
    ensures |r.value.messages| == SumLengths(s.entries)
  {
    var values := ValuesInOrder(s.entries, order);
    ConcatLength(values);
    EnumerationTotalLength(order, s.entries);
    Success(GetAllReply(Concat(values)))
  }

  /** Every stored body occurs verbatim in the read-all reply, after the bodies iterated before it. */
  lemma GetAllMessagesContains(s: HashMapLogger, order: seq<Uuid>, i: nat)
    requires IsEnumeration(order, s.entries)
    requires i < |order|
    ensures
      var values := ValuesInOrder(s.entries, order);
      var at := TotalLength(values[..i]);
      var text := GetAllMessages(s, order).value.messages;
      at + |s.entries[order[i]]| <= |text| && text[at..at + |s.entries[order[i]]|] == s.entries[order[i]]
  {
    ConcatContains(ValuesInOrder(s.entries, order), i);
  }

  /** A fresh store reads as the empty string. */
  lemma DefaultReadsEmpty()
    ensures GetAllMessages(Default(), []) == Success(GetAllReply(""))
  {
  }

  /**
   * Writing twice under one identifier keeps only the second body, and the
   * second write adds no key.
   */
  lemma LastWriteWins(s: HashMapLogger, first: MsgPostRequest, second: MsgPostRequest, parse: Parser)
    requires parse(first.uuid).Success? && parse(second.uuid) == parse(first.uuid)
    ensures
      var once := LogMessage(s, first, parse).store;
      var twice := LogMessage(once, second, parse).store;
      var id := parse(first.uuid).value;
      && twice.entries[id] == second.message
      && twice.entries.Keys == once.entries.Keys
      && |twice.entries| == |once.entries|
  {
  }

  /** Retrying an identical write changes nothing. */
  lemma RetryIsIdempotent(s: HashMapLogger, request: MsgPostRequest, parse: Parser)
    ensures
      var once := LogMessage(s, request, parse);
      LogMessage(once.store, request, parse) == once
  {
    var once := LogMessage(s, request, parse);
    if parse(request.uuid).Success? {
      var id := parse(request.uuid).value;
      assert once.store.entries[id := request.message] == once.store.entries;
    }
  }
}
